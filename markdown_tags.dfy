/** The fixed markup the markdown renderer writes around the text it keeps:
    the opening tags with their style classes, and the facts about their
    characters that the renderer's lemmas rely on.

    The longer tags are written as concatenations of pieces; the pieces
    join to the exact tags of the source. */
module MarkdownTags {
  // The structural pass.
  const H1Open := "<h1 class=\"text-2xl" + " font-bold mt-8 mb-4\">"
  const H2Open := "<h2 class=\"text-xl" + " font-semibold mt-6 mb-3\">"
  const H3Open := "<h3 class=\"text-lg" + " font-semibold mt-4 mb-2\">"
  const OrderedOpen := "<ol class=\"list-decimal" + " list-inside space-y-1" + " my-2 ml-4\">"
  const BulletOpen := "<ul class=\"list-disc" + " list-inside space-y-1" + " my-2 ml-4\">"
  /** Every list is closed with this tag, an ordered one included. */
  const ListClose := "</ul>"
  const ParagraphOpen := "<p class=\"mb-3\">"

  // The inline pass.
  const CodeOpen := "<code" + " class=\"bg-gray-100" + " dark:bg-gray-800" + " px-1 py-0.5 rounded text-sm\">"
  const PreOpen := "<pre" + " class=\"bg-gray-100" + " dark:bg-gray-800" + " p-3 rounded mt-2 mb-2"
    + " overflow-x-auto\"><code>"

  /** A character that delimits no emphasis or code and ends no line. */
  predicate PlainChar(c: char) {
    c != '*' && c != '`' && c != '\n'
  }

  predicate Plain(s: string) {
    forall i :: 0 <= i < |s| ==> PlainChar(s[i])
  }

  lemma PlainExcludes(s: string)
    requires Plain(s)
    ensures '*' !in s && '`' !in s && '\n' !in s
  {
    forall i | 0 <= i < |s| ensures s[i] != '*' && s[i] != '`' && s[i] != '\n' {
      assert PlainChar(s[i]);
    }
  }

  lemma H1OpenIsPlain()
    ensures Plain(H1Open)
  {
  }

  lemma H2OpenIsPlain()
    ensures Plain(H2Open)
  {
  }

  lemma H3OpenIsPlain()
    ensures Plain(H3Open)
  {
  }

  lemma OrderedOpenIsPlain()
    ensures Plain(OrderedOpen)
  {
  }

  lemma BulletOpenIsPlain()
    ensures Plain(BulletOpen)
  {
  }

  /** Plain text joined to plain text is plain. */
  lemma PlainConcat(a: string, b: string)
    requires Plain(a) && Plain(b)
    ensures Plain(a + b)
  {
    forall i | 0 <= i < |a + b| ensures PlainChar((a + b)[i]) {
      if i < |a| {
        assert (a + b)[i] == a[i];
      } else {
        assert (a + b)[i] == b[i - |a|];
      }
    }
  }

  lemma CodeOpenIsPlain()
    ensures Plain(CodeOpen)
  {
    var p1, p2, p3, p4 := "<code", " class=\"bg-gray-100", " dark:bg-gray-800", " px-1 py-0.5 rounded text-sm\">";
    assert Plain(p1) && Plain(p2) && Plain(p3) && Plain(p4);
    PlainConcat(p1, p2);
    PlainConcat(p1 + p2, p3);
    PlainConcat(p1 + p2 + p3, p4);
  }

  lemma PreOpenIsPlain()
    ensures Plain(PreOpen)
  {
    var p1, p2, p3, p4, p5 := "<pre", " class=\"bg-gray-100", " dark:bg-gray-800", " p-3 rounded mt-2 mb-2",
      " overflow-x-auto\"><code>";
    assert Plain(p1) && Plain(p2) && Plain(p3) && Plain(p4) && Plain(p5);
    PlainConcat(p1, p2);
    PlainConcat(p1 + p2, p3);
    PlainConcat(p1 + p2 + p3, p4);
    PlainConcat(p1 + p2 + p3 + p4, p5);
  }

  lemma ClosingTagsArePlain()
    ensures Plain("</h1>") && Plain("</h2>") && Plain("</h3>") && Plain(ListClose)
    ensures Plain("<li>") && Plain("</li>") && Plain(ParagraphOpen) && Plain("</p>")
  {
  }

  lemma InlineTagsArePlain()
    ensures Plain("<strong>") && Plain("</strong>") && Plain("<em>") && Plain("</em>")
    ensures Plain("</code>") && Plain("</code></pre>")
  {
  }

  /** The two long inline tags start with their element's name. */
  lemma InlineTagsStart()
    ensures |CodeOpen| >= 2 && CodeOpen[0] == '<' && CodeOpen[1] == 'c'
    ensures |PreOpen| >= 2 && PreOpen[0] == '<' && PreOpen[1] == 'p'
  {
  }
}
