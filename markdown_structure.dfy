/** The structural pass of the markdown renderer: the loop over the lines
    that emits headings, list containers with their items, and paragraphs,
    carrying the `inList` and `listType` flags from one line to the next.

    The pass is specified twice. `PassFrom` follows the loop: one `Step` per
    line, then the closing of a list still open. `Serialize(Group(...))` is an
    independent block view: the non-blank lines grouped into headings,
    paragraphs and maximal runs of list items of one kind, each run written
    as one opening tag, its items and one closing `</ul>`.
    `StructureIsBlocks` proves that the two agree. */
module MarkdownStructure {
  import opened Wrappers
  import opened JsStrings
  import opened MarkdownLines
  import opened MarkdownTags

  function HeadingHtml(level: nat, text: string): string {
    if level == 1 then H1Open + text + "</h1>"
    else if level == 2 then H2Open + text + "</h2>"
    else H3Open + text + "</h3>"
  }

  function ListOpen(kind: ListKind): string {
    match kind
    case Ordered => OrderedOpen
    case Bullet => BulletOpen
  }

  function ItemHtml(text: string): string {
    "<li>" + text + "</li>"
  }

  function ParagraphHtml(text: string): string {
    ParagraphOpen + text + "</p>"
  }

  /** The loop's variables: `html`, `inList` and `listType` (`None` for `''`). */
  datatype PassState = PassState(html: string, inList: bool, listType: Option<ListKind>)

  const Start := PassState("", false, None)

  /** The effect of one line on the loop's variables. A heading clears
      `inList` but leaves `listType` as it was. */
  function Step(st: PassState, k: LineKind): PassState {
    var closed := if st.inList then st.html + ListClose else st.html;
    match k
    case Heading(l, c) => PassState(closed + HeadingHtml(l, c), false, st.listType)
    case Item(kind, c) =>
      if !st.inList || st.listType != Some(kind) then
        PassState(closed + ListOpen(kind) + ItemHtml(c), true, Some(kind))
      else
        PassState(st.html + ItemHtml(c), true, Some(kind))
    case Blank =>
      if st.inList then PassState(closed, false, None) else st
    case Paragraph(t) =>
      PassState(closed + ParagraphHtml(t), false, if st.inList then None else st.listType)
  }

  /** After the loop: a list still open is closed. */
  function Finish(st: PassState): string {
    if st.inList then st.html + ListClose else st.html
  }

  /** The html the pass produces when it reaches the lines classified as
      `ks` in state `st`. */
  function PassFrom(st: PassState, ks: seq<LineKind>): string
    decreases |ks|
  {
    if ks == [] then Finish(st) else PassFrom(Step(st, ks[0]), ks[1..])
  }

  /** The result of the structural pass over all lines. */
  function Structure(lines: seq<string>): string {
    PassFrom(Start, ClassifyAll(lines))
  }

  // The block view.

  datatype Block =
    | HeadingBlock(level: nat, text: string)
    | ListBlock(kind: ListKind, items: seq<string>)
    | ParagraphBlock(text: string)

  /** The next line continues a run of items of `kind`. */
  predicate ContinuesRun(kind: ListKind, ks: seq<LineKind>) {
    |ks| > 0 && ks[0].Item? && ks[0].kind == kind
  }

  /** Blank lines vanish, and each maximal run of adjacent items of one kind
      becomes one list block. */
  function Group(ks: seq<LineKind>): (bs: seq<Block>)
    ensures |ks| > 0 && ks[0].Item? ==> |bs| > 0 && bs[0].ListBlock? && bs[0].kind == ks[0].kind
    decreases |ks|
  {
    if ks == [] then []
    else
      var rest := Group(ks[1..]);
      match ks[0]
      case Heading(l, c) => [HeadingBlock(l, c)] + rest
      case Item(kind, c) =>
        if ContinuesRun(kind, ks[1..]) then [ListBlock(kind, [c] + rest[0].items)] + rest[1..]
        else [ListBlock(kind, [c])] + rest
      case Blank => rest
      case Paragraph(t) => [ParagraphBlock(t)] + rest
  }

  function ItemsHtml(items: seq<string>): string {
    if items == [] then "" else ItemHtml(items[0]) + ItemsHtml(items[1..])
  }

  function BlockHtml(b: Block): string {
    match b
    case HeadingBlock(l, c) => HeadingHtml(l, c)
    case ListBlock(kind, items) => ListOpen(kind) + ItemsHtml(items) + ListClose
    case ParagraphBlock(t) => ParagraphHtml(t)
  }

  function Serialize(bs: seq<Block>): string {
    if bs == [] then "" else BlockHtml(bs[0]) + Serialize(bs[1..])
  }

  /** What the pass still emits for `ks` when it reaches them with the flags
      of `st`: an open list of the same kind is continued by the first block,
      any other open list is closed first. */
  function Remainder(st: PassState, ks: seq<LineKind>): string {
    var bs := Group(ks);
    if !st.inList then Serialize(bs)
    else if st.listType.Some? && ContinuesRun(st.listType.value, ks) then
      ItemsHtml(bs[0].items) + ListClose + Serialize(bs[1..])
    else ListClose + Serialize(bs)
  }

  /** One step of the loop keeps the html written so far plus what remains
      to be written unchanged. */
  lemma StepKeepsRemainder(st: PassState, ks: seq<LineKind>)
    requires ks != []
    ensures Step(st, ks[0]).html + Remainder(Step(st, ks[0]), ks[1..]) == st.html + Remainder(st, ks)
  {
    var g := Group(ks[1..]);
    var closing := if st.inList then ListClose else "";
    AppendAssoc(st.html, closing, Serialize(Group(ks)));
    match ks[0]
    case Heading(l, c) =>
      var h := HeadingHtml(l, c);
      assert Group(ks) == [HeadingBlock(l, c)] + g;
      assert Serialize(Group(ks)) == h + Serialize(g);
      AppendAssoc(st.html + closing, h, Serialize(g));
    case Paragraph(t) =>
      var p := ParagraphHtml(t);
      assert Group(ks) == [ParagraphBlock(t)] + g;
      assert Serialize(Group(ks)) == p + Serialize(g);
      AppendAssoc(st.html + closing, p, Serialize(g));
    case Blank =>
      assert Group(ks) == g;
    case Item(_, _) =>
      ItemStepKeepsRemainder(st, ks);
  }

  /** The first block of the items run that starts at an item line `ks[0]`:
      its items are the first item followed by the items of the run's later
      lines, whose html is `later`; `tail` are the blocks after the run. */
  lemma ItemRunHead(ks: seq<LineKind>) returns (later: string, tail: seq<Block>)
    requires ks != [] && ks[0].Item?
    ensures Group(ks) == [Group(ks)[0]] + tail
    ensures ItemsHtml(Group(ks)[0].items) == ItemHtml(ks[0].text) + later
    ensures Remainder(Step(PassState("", true, Some(ks[0].kind)), ks[0]), ks[1..])
            == later + ListClose + Serialize(tail)
  {
    var kind, c := ks[0].kind, ks[0].text;
    var rest := ks[1..];
    var g := Group(rest);
    if ContinuesRun(kind, rest) {
      later, tail := ItemsHtml(g[0].items), g[1..];
      assert ([c] + g[0].items)[1..] == g[0].items;
    } else {
      later, tail := "", g;
      assert [c][1..] == [];
    }
  }

  /** The items run that starts at an item line `ks[0]`, split into its
      first item, the html of the items after it (`later`) and the html of
      everything after the run (`after`). */
  lemma ItemRunSplits(ks: seq<LineKind>) returns (later: string, after: string)
    requires ks != [] && ks[0].Item?
    ensures ItemsHtml(Group(ks)[0].items) + ListClose + Serialize(Group(ks)[1..])
            == ItemHtml(ks[0].text) + later + after
    ensures Serialize(Group(ks)) == ListOpen(ks[0].kind) + ItemHtml(ks[0].text) + later + after
    ensures Remainder(Step(PassState("", true, Some(ks[0].kind)), ks[0]), ks[1..]) == later + after
  {
    var tail;
    later, tail := ItemRunHead(ks);
    var open, item, close, rest := ListOpen(ks[0].kind), ItemHtml(ks[0].text), ListClose, Serialize(tail);
    after := close + rest;
    var b := Group(ks)[0];
    assert Group(ks)[1..] == tail;
    assert ItemsHtml(b.items) + close + Serialize(Group(ks)[1..]) == item + later + after by {
      AppendAssoc(item + later, close, rest);
    }
    assert Serialize(Group(ks)) == open + item + later + after by {
      assert Serialize(Group(ks)) == open + (item + later) + close + rest;
      AppendAssoc(open, item, later);
      AppendAssoc(open + item + later, close, rest);
    }
    AppendAssoc(later, close, rest);
  }

  lemma ItemStepKeepsRemainder(st: PassState, ks: seq<LineKind>)
    requires ks != [] && ks[0].Item?
    ensures Step(st, ks[0]).html + Remainder(Step(st, ks[0]), ks[1..]) == st.html + Remainder(st, ks)
  {
    var kind, c := ks[0].kind, ks[0].text;
    var st' := Step(st, ks[0]);
    var later, after := ItemRunSplits(ks);
    assert Remainder(st', ks[1..]) == later + after;
    var item := ItemHtml(c);
    if st.inList && st.listType == Some(kind) {
      assert Remainder(st, ks) == item + later + after;
      AppendAssoc(st.html + item, later, after);
      AppendAssoc(st.html, item, later);
      AppendAssoc(st.html, item + later, after);
    } else {
      var closing := if st.inList then ListClose else "";
      var open := ListOpen(kind);
      var run := open + item + later + after;
      assert Remainder(st, ks) == closing + run;
      var head := st.html + closing + open + item;
      assert st'.html == head;
      AppendAssoc(head, later, after);
      AppendAssoc(st.html, closing, run);
      AppendAssoc(st.html + closing, open + item + later, after);
      AppendAssoc(st.html + closing, open + item, later);
      AppendAssoc(st.html + closing, open, item);
    }
  }

  lemma {:induction false} PassFromIsBlocks(st: PassState, ks: seq<LineKind>)
    ensures PassFrom(st, ks) == st.html + Remainder(st, ks)
    decreases |ks|
  {
    if ks != [] {
      PassFromIsBlocks(Step(st, ks[0]), ks[1..]);
      StepKeepsRemainder(st, ks);
    }
  }

  /** The structural pass writes exactly the serialisation of the block view. */
  lemma StructureIsBlocks(lines: seq<string>)
    ensures Structure(lines) == Serialize(Group(ClassifyAll(lines)))
  {
    var ks := ClassifyAll(lines);
    PassFromIsBlocks(Start, ks);
    assert !Start.inList && Start.html == [];
    assert Remainder(Start, ks) == Serialize(Group(ks));
  }

  // What the block view keeps: every non-blank line, in order.

  function ItemLines(kind: ListKind, items: seq<string>): (ks: seq<LineKind>)
    ensures |ks| == |items|
  {
    if items == [] then [] else [Item(kind, items[0])] + ItemLines(kind, items[1..])
  }

  /** The lines a sequence of blocks stands for. */
  function Ungroup(bs: seq<Block>): seq<LineKind> {
    if bs == [] then []
    else
      var first := match bs[0]
        case HeadingBlock(l, c) => [Heading(l, c)]
        case ListBlock(kind, items) => ItemLines(kind, items)
        case ParagraphBlock(t) => [Paragraph(t)];
      first + Ungroup(bs[1..])
  }

  function NonBlank(ks: seq<LineKind>): seq<LineKind> {
    if ks == [] then [] else (if ks[0].Blank? then [] else [ks[0]]) + NonBlank(ks[1..])
  }

  /** Grouping loses no line and reorders none: reading the blocks back gives
      the lines that are not blank, in their order. */
  lemma {:induction false} GroupKeepsLines(ks: seq<LineKind>)
    ensures Ungroup(Group(ks)) == NonBlank(ks)
    decreases |ks|
  {
    if ks != [] {
      var rest := ks[1..];
      var g := Group(rest);
      GroupKeepsLines(rest);
      match ks[0]
      case Heading(l, c) =>
        assert Group(ks) == [HeadingBlock(l, c)] + g;
        assert Group(ks)[1..] == g;
      case Paragraph(t) =>
        assert Group(ks) == [ParagraphBlock(t)] + g;
        assert Group(ks)[1..] == g;
      case Blank =>
      case Item(kind, c) =>
        if ContinuesRun(kind, rest) {
          var items := g[0].items;
          assert Group(ks) == [ListBlock(kind, [c] + items)] + g[1..];
          assert Group(ks)[1..] == g[1..];
          assert ([c] + items)[1..] == items;
          assert Ungroup(g) == ItemLines(kind, items) + Ungroup(g[1..]);
          ConsAppendAssoc(Item(kind, c), ItemLines(kind, items), Ungroup(g[1..]));
        } else {
          assert Group(ks) == [ListBlock(kind, [c])] + g;
          assert Group(ks)[1..] == g;
        }
    }
  }

  // One list container per maximal run of items.

  /** The number of list blocks. */
  function ListCount(bs: seq<Block>): nat {
    if bs == [] then 0 else (if bs[0].ListBlock? then 1 else 0) + ListCount(bs[1..])
  }

  /** The number of item lines that are not followed by an item of the same
      kind, which is the number of maximal runs of items of one kind. */
  function RunEnds(ks: seq<LineKind>): nat {
    if ks == [] then 0
    else (if ks[0].Item? && !ContinuesRun(ks[0].kind, ks[1..]) then 1 else 0) + RunEnds(ks[1..])
  }

  /** Grouping makes exactly one list container per maximal run. */
  lemma {:induction false} OneContainerPerRun(ks: seq<LineKind>)
    ensures ListCount(Group(ks)) == RunEnds(ks)
    decreases |ks|
  {
    if ks != [] {
      var rest := ks[1..];
      var g := Group(rest);
      OneContainerPerRun(rest);
      match ks[0]
      case Heading(l, c) =>
        assert Group(ks) == [HeadingBlock(l, c)] + g;
        assert Group(ks)[1..] == g;
      case Paragraph(t) =>
        assert Group(ks) == [ParagraphBlock(t)] + g;
        assert Group(ks)[1..] == g;
      case Blank =>
      case Item(kind, c) =>
        if ContinuesRun(kind, rest) {
          assert Group(ks) == [ListBlock(kind, [c] + g[0].items)] + g[1..];
          assert Group(ks)[1..] == g[1..];
        } else {
          assert Group(ks) == [ListBlock(kind, [c])] + g;
          assert Group(ks)[1..] == g;
        }
    }
  }

  // The same html as a sequence of fragments, to count the list tags.

  datatype Fragment =
    | OpenList(kind: ListKind)
    | CloseList(kind: ListKind)
    | ItemFragment(text: string)
    | HeadingFragment(level: nat, text: string)
    | ParagraphFragment(text: string)

  /** The closing fragment of a list renders as `</ul>` whatever its kind. */
  function FragmentHtml(f: Fragment): string {
    match f
    case OpenList(kind) => ListOpen(kind)
    case CloseList(_) => ListClose
    case ItemFragment(t) => ItemHtml(t)
    case HeadingFragment(l, t) => HeadingHtml(l, t)
    case ParagraphFragment(t) => ParagraphHtml(t)
  }

  function FragmentsHtml(fs: seq<Fragment>): string {
    if fs == [] then "" else FragmentHtml(fs[0]) + FragmentsHtml(fs[1..])
  }

  function ItemFragments(items: seq<string>): seq<Fragment> {
    if items == [] then [] else [ItemFragment(items[0])] + ItemFragments(items[1..])
  }

  function BlockFragments(b: Block): seq<Fragment> {
    match b
    case HeadingBlock(l, c) => [HeadingFragment(l, c)]
    case ListBlock(kind, items) => [OpenList(kind)] + ItemFragments(items) + [CloseList(kind)]
    case ParagraphBlock(t) => [ParagraphFragment(t)]
  }

  function Fragments(bs: seq<Block>): seq<Fragment> {
    if bs == [] then [] else BlockFragments(bs[0]) + Fragments(bs[1..])
  }

  function Opened(fs: seq<Fragment>): nat {
    if fs == [] then 0 else (if fs[0].OpenList? then 1 else 0) + Opened(fs[1..])
  }

  function Closed(fs: seq<Fragment>): nat {
    if fs == [] then 0 else (if fs[0].CloseList? then 1 else 0) + Closed(fs[1..])
  }

  lemma {:induction false} FragmentsHtmlAppend(a: seq<Fragment>, b: seq<Fragment>)
    ensures FragmentsHtml(a + b) == FragmentsHtml(a) + FragmentsHtml(b)
    decreases |a|
  {
    if a != [] {
      assert (a + b)[1..] == a[1..] + b;
      FragmentsHtmlAppend(a[1..], b);
      AppendAssoc(FragmentHtml(a[0]), FragmentsHtml(a[1..]), FragmentsHtml(b));
    } else {
      assert a + b == b;
    }
  }

  lemma {:induction false} CountsAppend(a: seq<Fragment>, b: seq<Fragment>)
    ensures Opened(a + b) == Opened(a) + Opened(b)
    ensures Closed(a + b) == Closed(a) + Closed(b)
    decreases |a|
  {
    if a != [] {
      assert (a + b)[1..] == a[1..] + b;
      CountsAppend(a[1..], b);
    } else {
      assert a + b == b;
    }
  }

  lemma {:induction false} ItemFragmentsHtml(items: seq<string>)
    ensures FragmentsHtml(ItemFragments(items)) == ItemsHtml(items)
    ensures Opened(ItemFragments(items)) == 0 && Closed(ItemFragments(items)) == 0
    decreases |items|
  {
    if items != [] {
      ItemFragmentsHtml(items[1..]);
    }
  }

  /** The fragments render to the serialised blocks, and they hold one
      opening and one closing list tag per list block. */
  lemma {:induction false} FragmentsOfBlocks(bs: seq<Block>)
    ensures FragmentsHtml(Fragments(bs)) == Serialize(bs)
    ensures Opened(Fragments(bs)) == ListCount(bs) && Closed(Fragments(bs)) == ListCount(bs)
    decreases |bs|
  {
    if bs != [] {
      var first, rest := BlockFragments(bs[0]), Fragments(bs[1..]);
      FragmentsOfBlocks(bs[1..]);
      FragmentsHtmlAppend(first, rest);
      CountsAppend(first, rest);
      if bs[0].ListBlock? {
        var items := ItemFragments(bs[0].items);
        ItemFragmentsHtml(bs[0].items);
        FragmentsHtmlAppend([OpenList(bs[0].kind)] + items, [CloseList(bs[0].kind)]);
        FragmentsHtmlAppend([OpenList(bs[0].kind)], items);
        CountsAppend([OpenList(bs[0].kind)] + items, [CloseList(bs[0].kind)]);
        CountsAppend([OpenList(bs[0].kind)], items);
      }
    }
  }

  /** The structural pass writes a sequence of fragments in which every list
      opened is closed by one `</ul>`: as many closing tags as opening ones,
      one pair per maximal run of items. */
  lemma ListTagsBalanced(lines: seq<string>)
    ensures var bs := Group(ClassifyAll(lines));
      && Structure(lines) == FragmentsHtml(Fragments(bs))
      && Opened(Fragments(bs)) == Closed(Fragments(bs)) == RunEnds(ClassifyAll(lines))
  {
    var bs := Group(ClassifyAll(lines));
    StructureIsBlocks(lines);
    FragmentsOfBlocks(bs);
    OneContainerPerRun(ClassifyAll(lines));
  }

  // Characters the pass does not introduce.

  /** `c` occurs in none of the fixed markup of the structural pass. */
  predicate AbsentFromMarkup(c: char) {
    && c !in H1Open && c !in H2Open && c !in H3Open
    && c !in "</h1>" && c !in "</h2>" && c !in "</h3>"
    && c !in OrderedOpen && c !in BulletOpen && c !in ListClose
    && c !in "<li>" && c !in "</li>" && c !in ParagraphOpen && c !in "</p>"
  }

  /** None of the markup of the structural pass holds an emphasis or code
      delimiter or a newline. */
  lemma MarkupIsPlain()
    ensures AbsentFromMarkup('*') && AbsentFromMarkup('`') && AbsentFromMarkup('\n')
  {
    H1OpenIsPlain();
    H2OpenIsPlain();
    H3OpenIsPlain();
    OrderedOpenIsPlain();
    BulletOpenIsPlain();
    ClosingTagsArePlain();
    PlainExcludes(H1Open);
    PlainExcludes(H2Open);
    PlainExcludes(H3Open);
    PlainExcludes(OrderedOpen);
    PlainExcludes(BulletOpen);
    PlainExcludes(ListClose);
    PlainExcludes(ParagraphOpen);
    PlainExcludes("</h1>");
    PlainExcludes("</h2>");
    PlainExcludes("</h3>");
    PlainExcludes("<li>");
    PlainExcludes("</li>");
    PlainExcludes("</p>");
  }

  /** The text a classification keeps does not hold `c`. */
  predicate KindAvoids(k: LineKind, c: char) {
    match k
    case Heading(_, t) => c !in t
    case Item(_, t) => c !in t
    case Blank => true
    case Paragraph(t) => c !in t
  }

  /** Classification only ever keeps the end of the line. */
  lemma ClassifyAvoids(line: string, c: char)
    requires c !in line
    ensures KindAvoids(Classify(line), c)
  {
    match Classify(line)
    case Heading(l, t) =>
      ClassifyExplainsHeading(line);
      assert line == HeadingMarker(l) + t;
    case Item(_, t) =>
      ClassifyExplainsItem(line);
      assert line == line[..|line| - |t|] + t;
    case Blank =>
    case Paragraph(_) =>
  }

  lemma {:induction false} PassFromAvoids(st: PassState, ks: seq<LineKind>, c: char)
    requires AbsentFromMarkup(c) && c !in st.html
    requires forall i :: 0 <= i < |ks| ==> KindAvoids(ks[i], c)
    ensures c !in PassFrom(st, ks)
    decreases |ks|
  {
    if ks != [] {
      assert KindAvoids(ks[0], c);
      var st' := Step(st, ks[0]);
      assert c !in st'.html;
      PassFromAvoids(st', ks[1..], c);
    }
  }

  /** A character that is in no line and in no fixed markup is not in the
      structural output; a newline in particular never is, for lines that
      come from `split('\n')`. */
  lemma StructureAvoids(lines: seq<string>, c: char)
    requires AbsentFromMarkup(c)
    requires forall i :: 0 <= i < |lines| ==> c !in lines[i]
    ensures c !in Structure(lines)
  {
    var ks := ClassifyAll(lines);
    forall i | 0 <= i < |ks| ensures KindAvoids(ks[i], c) {
      ClassifyAvoids(lines[i], c);
    }
    PassFromAvoids(Start, ks, c);
  }

  // Proof steps used by the lemmas above.

  lemma ConsAppendAssoc(k: LineKind, a: seq<LineKind>, b: seq<LineKind>)
    ensures [k] + (a + b) == [k] + a + b
  {
  }
}
