# LawAI front end: renderer, request gate and response handling

This project models the logic at the centre of the LawAI web front end
(`script.js`). It covers three pieces.

- **Markdown renderer** (`parseMarkdownToHTML`). It coerces its input to a
  string and splits it into lines. One loop classifies each line as a
  heading, a list item, a blank line or a paragraph. The loop writes the
  HTML and keeps the flags `inList` and `listType`. After the loop, four
  global replacements add bold, italic, inline code and fenced code.
- **Request gate.** It allows one request in flight and at least
  5000 ms between accepted requests. A throttled click sees a countdown in
  whole seconds. An accepted click sends the trimmed query followed by a
  fixed instruction text. The `finally` block clears the in-flight flag.
- **Response handling.** The provider's answer is turned into the text
  that is rendered. A thrown error is mapped to one of three error screens.

Modules, one per file:

- `JsValues` and `JsStrings`: the JavaScript notions the code relies on.
  These are truthiness, `?.` property access and `||`; `trim`, the `\s`
  class, line terminators, `split('\n')` and `includes`.
- `MarkdownLines`: line classification, in the source's priority order.
- `MarkdownTags`: the exact tags and style classes the renderer writes.
- `MarkdownStructure`: the structural pass, specified twice.
  - `PassFrom` follows the loop one line at a time.
  - `Serialize(Group(...))` is an independent block view: headings,
    paragraphs, and maximal runs of items of one kind.
  - The two are proved equal.
- `MarkdownInline`: the four replacements. Each one is a left-to-right scan
  with a lazy search for the closing delimiter.
- `MarkdownRender`: the renderer as imperative methods. `RenderLines` holds
  the loop over the lines and `RenderLine` its body. Both are proved equal
  to the specification, and so is `Render` as a whole.
- `ResponseText`: response-text extraction and error classification.
- `RequestGate`: the gate.
  - The rules are the pure functions `Decide` and `Release`.
  - `Run` replays a history of submissions and completions.
  - The class `Gate` holds `lastRequestTime` and `isRequestInProgress`, and
    keeps them equal to `Run` of its own history.
  - The countdown is a method with a loop.

Quirks of the code that are modelled as written:

- Every list is closed with `</ul>`, an ordered one included.
- A heading clears `inList` but keeps `listType`.
- A `.` in a pattern matches no line terminator. A heading line with a
  `'\r'` after its marker is therefore a paragraph. A list line is one only
  when the terminator comes after the whitespace that follows its marker:
  `\s+` takes a `'\r'` in that whitespace, so `"- \rx"` is an item with
  text `x`.
- The inline pass runs over the whole HTML, tags included.
- The output never holds a newline.

One might expect an empty answer to render the fallback text. The code
does otherwise in two ways, and the model follows the code:

- An empty-string answer renders as nothing (`EmptyAnswerShowsNothing`).
- An answer that is not a string or an object shows "No response received
  from AI service" (`MissingAnswerShowsNotice`). The renderer's own
  fallback, "No response content", is used only for falsy values that are
  not strings, and the front end never passes those to it.

## Model

| member | source | states |
|---|---|---|
| JsValues.Truthy | script.js:323-325 | defines JavaScript truthiness, as `response && …` and `\|\|` test it here and at script.js:57 and 353: `undefined`, `null`, `false`, `0`, `NaN` and `""` are falsy and everything else is truthy; used by FirstTruthyIndex, OrChainIsFirstTruthy and FalsyInputRendersFallback |
| JsValues.Or | script.js:325 | defines `a \|\| b`: the left operand when it is truthy, otherwise the right one; stated through OrChainIsFirstTruthy |
| JsValues.Property | script.js:325 | `v?.name` is the value stored under `name` when `v` is an object holding it, and `undefined` otherwise |
| JsStrings.Contains | script.js:353 | defines `includes`: some position of the string starts the substring; stated by AuthRequiredIff and RateLimitMessageLacks401 |
| JsStrings.Trim | script.js:236 | `trim` leaves what lies between a whitespace prefix and a whitespace suffix; the result is empty exactly when the string is all whitespace, and it neither starts nor ends with whitespace |
| JsStrings.Split | script.js:60 | `split('\n')` gives at least one piece, no piece holds a newline, and joining the pieces with newlines gives the input back |
| JsStrings.SplitOfJoin | script.js:60 | splitting newline-free pieces joined with newlines gives those pieces back |
| JsStrings.SplitKeepsAbsence | script.js:60 | a character missing from the input is missing from every line |
| MarkdownLines.HeadingText | script.js:69-83 | defines the test and the text of a heading: the line starts with the marker and the rest holds no line terminator, and the text is that rest; stated by ClassifyExplainsHeading and ClassifyHeadingLine |
| MarkdownLines.ListItemTail | script.js:86-105 | defines what `\s+(.*$)` accepts after a list marker and what the `replace` leaves: the text after the longest non-empty whitespace prefix, when it holds no line terminator; stated by ClassifyExplainsItem, OrderedItemExplainsLine and BulletItemExplainsLine |
| MarkdownLines.OrderedItemText | script.js:86-93 | defines the test and the text of an ordered item: a digit run, a dot, then an item tail; stated by OrderedItemExplainsLine and ClassifyOrderedLine |
| MarkdownLines.BulletItemText | script.js:98-105 | defines the test and the text of a bullet item: `*` or `-`, then an item tail; stated by BulletItemExplainsLine and ClassifyBulletLine |
| MarkdownLines.Classify | script.js:65-125 | defines the kind of a line under the source's order of tests: `### `, `## ` and `# ` headings, then ordered and bullet items, then blank lines, then paragraphs; what each kind means is stated by the ClassifyExplains* lemmas and, conversely, by the Classify*Line lemmas below |
| MarkdownLines.DigitRun | script.js:86 | the run of `\d+` at the start of a line is the longest prefix of digits |
| MarkdownLines.ClassifyExplainsHeading | script.js:69-83 | a line classified as a heading of level 1 to 3 is that level's `#` marker followed by its text, with no line terminator |
| MarkdownLines.ClassifyExplainsItem | script.js:86-107 | a line classified as a list item is a marker of that kind followed by the item text; the text has no line terminator and does not start with whitespace |
| MarkdownLines.OrderedItemExplainsLine | script.js:86-93 | an ordered item is digits, a dot and whitespace, then its text |
| MarkdownLines.BulletItemExplainsLine | script.js:98-105 | a bullet item is `*` or `-` and whitespace, then its text |
| MarkdownLines.ClassifyExplainsBlank | script.js:110 | a line classified as blank is all whitespace |
| MarkdownLines.ClassifyExplainsParagraph | script.js:117-124 | a paragraph keeps the line verbatim, and the line is not all whitespace |
| MarkdownLines.ClassifyHeadingLine | script.js:69-83 | conversely, a heading marker followed by text with no line terminator is a heading of that level with that text |
| MarkdownLines.ClassifyOrderedLine | script.js:86-95 | conversely, an ordered marker followed by item text is an ordered item with that text |
| MarkdownLines.ClassifyBulletLine | script.js:98-107 | conversely, a bullet marker followed by item text is a bullet item with that text |
| MarkdownLines.ClassifyBlankLine | script.js:110-116 | conversely, an all-whitespace line is blank |
| MarkdownLines.ClassifyParagraphLine | script.js:117-125 | conversely, a non-blank line starting with none of `#`, `*`, `-` or a digit is a paragraph |
| MarkdownStructure.Step | script.js:66-125 | defines one iteration of the loop: it closes an open list unless the line continues it, opens a container for a new run, and appends the line's html; RenderLine ties the loop body to it, and PassFromIsBlocks states what repeated steps write |
| MarkdownStructure.PassFrom | script.js:61-131 | defines the loop from a given state to the last line, followed by the closing of a list left open; stated by PassFromIsBlocks |
| MarkdownStructure.Finish | script.js:128-131 | defines the end of the pass: a list still open is closed with `</ul>`; stated by PassFromIsBlocks and ListTagsBalanced |
| MarkdownStructure.Structure | script.js:61-131 | defines the structural pass over all lines, starting with empty html and no list; stated by StructureIsBlocks, GroupKeepsLines, OneContainerPerRun, ListTagsBalanced and StructureAvoids |
| MarkdownStructure.PassFromIsBlocks | script.js:65-131 | from any loop state, what the loop still writes is the state's html, then the closing of an open list unless the next run continues it, then the block view of the remaining lines |
| MarkdownStructure.StructureIsBlocks | script.js:65-131 | the structural pass equals the block view: blank lines vanish, each heading and paragraph is one block, and each maximal run of items of one kind is one list container |
| MarkdownStructure.GroupKeepsLines | script.js:65-126 | the block view loses no line except blank ones, and keeps their order and text |
| MarkdownStructure.OneContainerPerRun | script.js:87-104 | the number of list containers is the number of maximal runs of same-kind items |
| MarkdownStructure.ListTagsBalanced | script.js:70-131 | the output is a sequence of fragments with as many list openers as `</ul>` closers, one pair per run |
| MarkdownStructure.ClassifyAvoids | script.js:69-125 | the text a classification keeps holds no character that is missing from the line |
| MarkdownStructure.StructureAvoids | script.js:61-131 | a character in no line and in no markup is not in the structural output |
| MarkdownStructure.MarkupIsPlain | script.js:71-124 | no tag of the structural pass holds `*`, a backtick or a newline |
| MarkdownTags.OrderedOpenIsPlain | script.js:89 | the ordered-list opening tag holds no `*`, backtick or newline |
| MarkdownTags.BulletOpenIsPlain | script.js:101 | the bullet-list opening tag holds no `*`, backtick or newline |
| MarkdownTags.CodeOpenIsPlain | script.js:137 | the inline-code opening tag holds no `*`, backtick or newline |
| MarkdownTags.PreOpenIsPlain | script.js:138 | the fenced-code opening tag holds no `*`, backtick or newline |
| MarkdownInline.Replace | script.js:135-138 | defines one global regex replacement: a left-to-right scan that replaces each lazy match by its tags and keeps every other character; stated by ReplaceAtMatch and ReplaceWithoutMatch, with ReplaceIdentity, ReplaceAvoids and ReplaceRoundTrip |
| MarkdownInline.InlinePass | script.js:134-138 | defines the four replacements in the source's order: bold, italic, inline code, fenced code; stated by InlinePassIdentity, InlinePassAvoids and InlinePassBoldExample |
| MarkdownInline.FindClose | script.js:135-138 | the lazy search returns the first index where the closing delimiter can end the content, or none when there is no such index |
| MarkdownInline.MatchAt | script.js:135-138 | a result is a lazy match at the start of the input: the delimiter, the shortest content the pattern allows (non-empty for `` [^`]+ ``) and the closing delimiter, all within the input; `None` means no match starts there |
| MarkdownInline.ReplaceAtMatch | script.js:135-138 | where a match starts, the replacement writes the opening tag, the content and the closing tag, then goes on after the closing delimiter |
| MarkdownInline.ReplaceWithoutMatch | script.js:135-138 | where no match starts, the replacement keeps the character and goes on with the next one |
| MarkdownInline.BoldExample | script.js:135 | `**a**` becomes `<strong>a</strong>` |
| MarkdownInline.InlinePassBoldExample | script.js:134-138 | the whole inline pass turns `**a**` into `<strong>a</strong>` |
| MarkdownInline.ReplaceIdentity | script.js:135-138 | a replacement leaves unchanged any input without the delimiter's first character |
| MarkdownInline.ReplaceAvoids | script.js:135-138 | a replacement adds no character that is in neither its input nor its tags |
| MarkdownInline.ReplaceRoundTrip | script.js:135-138 | on input without `<`, turning each tag back into its delimiter gives back the input; this is a property of the scan on plain text, not of the renderer's inline step, whose input always holds the structural tags |
| MarkdownInline.InlinePatternsTagged | script.js:135-138 | each of the four patterns has tags that start with `<` and whose opener and closer differ |
| MarkdownInline.InlinePassIdentity | script.js:134-138 | input without `*` and backtick passes the four replacements unchanged |
| MarkdownInline.InlinePassAvoids | script.js:134-138 | the inline pass adds no character absent from its input and from all eight tags |
| MarkdownInline.PatternTagsHaveNoNewline | script.js:135-138 | no inline tag holds a newline |
| MarkdownRender.Coerce | script.js:54-57 | defines the text the renderer works on: a string as it is, a truthy value through `String`, and "No response content" for a falsy one; stated by FalsyInputRendersFallback and EmptyTextRendersNothing |
| MarkdownRender.RenderSpec | script.js:52-139 | defines the renderer as coercion, then the split into lines, the structural pass and the inline pass; the Render method is proved equal to it, and PlainTextIsStructural and OutputHasNoNewline state its properties |
| MarkdownRender.Render | script.js:52-139 | the loop method returns the composed specification, which is the inline pass over the block view of the lines of the coerced input |
| MarkdownRender.RenderLines | script.js:61-131 | the loop over the lines, with the closing of a list left open, writes exactly the structural pass, which is the block view of the lines |
| MarkdownRender.RenderLine | script.js:66-125 | one iteration of the loop changes html, `inList` and `listType` exactly as one step of the pass on the line's classification |
| MarkdownRender.FalsyInputRendersFallback | script.js:54-57 | a falsy non-string input renders as one paragraph holding "No response content" |
| MarkdownRender.EmptyTextRendersNothing | script.js:60-116 | the empty string is one blank line and renders as nothing |
| MarkdownRender.PlainLineRendersParagraph | script.js:117-124 | a text of one line with no `*`, backtick or newline, which the classification makes a paragraph, renders as one paragraph holding it |
| MarkdownRender.OneLineStructure | script.js:60-126 | the structural pass writes a text of one newline-free line that the classification makes a paragraph as one paragraph |
| MarkdownRender.MarkerFreeLineIsParagraph | script.js:117-125 | a line whose first character is neither whitespace nor `#`, `*`, `-` or a digit is a paragraph |
| MarkdownRender.PlainTextIsStructural | script.js:134-138 | input without `*` and backtick renders as exactly the block view of its lines |
| MarkdownRender.OutputHasNoNewline | script.js:60-138 | the renderer's output never holds a newline |
| ResponseText.ExtractText | script.js:320-333 | defines the text shown for an answer: a string as it is, for an array or object the value of the `\|\|` chain when it is a string and its JSON otherwise, and the fixed notice for anything else; stated by ExtractTextCases, ProviderMessageIsUsed, EmptyDataIsKept and BareObjectIsStringified |
| ResponseText.OrChain | script.js:325 | defines `message?.content \|\| content \|\| text \|\| data` on the response; stated by OrChainIsFirstTruthy |
| ResponseText.FirstTruthyIndex | script.js:325 | the index of the first truthy value, or of the last one when none is truthy |
| ResponseText.OrChainIsFirstTruthy | script.js:325 | `message?.content \|\| content \|\| text \|\| data` is the first truthy candidate, or the last one when none is truthy |
| ResponseText.ExtractTextCases | script.js:320-333 | a string is used as it is; an array or object gives the first truthy candidate when it is a string, the last candidate when that is a string, and its JSON otherwise; anything else gives the fixed notice |
| ResponseText.ProviderMessageIsUsed | script.js:324-325 | a non-empty `message.content` is shown, whatever the other fields hold |
| ResponseText.EmptyDataIsKept | script.js:325-330 | an object whose first three candidates are falsy and whose `data` is `""` yields `""`, not its JSON |
| ResponseText.BareObjectIsStringified | script.js:328-330 | an object with none of the four names is shown as its JSON |
| ResponseText.ClassifyError | script.js:353-421 | defines which error screen is shown: an authentication notice when the message contains `401`, else a rate-limit notice when it is `RATE_LIMIT_EXCEEDED`, else the generic error; stated by AuthRequiredIff, RateLimitedIff, NoMessageIsGeneric and RateLimitMessageLacks401 |
| ResponseText.RateLimitMessageLacks401 | script.js:353-380 | the rate-limit message does not contain `401`, so the first test cannot capture it |
| ResponseText.AuthRequiredIff | script.js:353 | an error asks for authentication exactly when its message contains `401` |
| ResponseText.RateLimitedIff | script.js:380 | an error is a rate-limit issue exactly when its message is `RATE_LIMIT_EXCEEDED` |
| ResponseText.NoMessageIsGeneric | script.js:412 | a missing or empty message is a generic error |
| RequestGate.Decide | script.js:236-295 | defines what a submission does, in the source's order of guards: ignored when the trimmed query is empty, busy when a request is in flight, throttled when under 5000 ms have passed, accepted otherwise; stated by AcceptedIff, RejectionKeepsState and ThrottleWait, and used by Gate.Submit |
| RequestGate.Prompt | script.js:297 | defines the prompt sent for the trimmed query: the query, `". "` and the fixed instructions; stated by AcceptedIff |
| RequestGate.AfterSubmit | script.js:294-295 | defines the gate after a submission: acceptance stamps the time and marks a request in flight, and every other answer leaves the gate as it was; stated by ApplyStamps and RejectionKeepsState, and used by Gate.Submit |
| RequestGate.WaitSeconds | script.js:251-252 | defines the seconds a throttled submission is told to wait, `Math.ceil` of the remaining milliseconds over 1000; stated by ThrottleWait through CeilDiv |
| RequestGate.Release | script.js:423-429 | defines the `finally` block's effect on the gate: the flag is cleared and the time kept; stated by CompletionKeepsTime and used by Gate.Complete |
| RequestGate.CeilDiv | script.js:252 | `Math.ceil(n / d)` is the least integer `r` with `n <= d * r` |
| RequestGate.ThrottleWait | script.js:251-252 | a throttled submission waits at least one second, and at most five when the clock has not gone back |
| RequestGate.AcceptedIff | script.js:236-297 | a submission is accepted exactly when the trimmed query is non-empty, no request is in flight and 5000 ms or more have passed; the prompt is the trimmed query, `". "` and the instructions |
| RequestGate.RejectionKeepsState | script.js:236-252 | an ignored, busy or throttled submission leaves both variables unchanged |
| RequestGate.CompletionKeepsTime | script.js:423-429 | a completion clears the flag and keeps the time |
| RequestGate.ApplyStamps | script.js:294 | an event moves the time exactly when it is an accepted submission, and moves it to that submission's time |
| RequestGate.LastTimeIsLastAccepted | script.js:19-294 | the gate's time is that of the last accepted submission, and 0 before any |
| RequestGate.ConsecutiveSpacing | script.js:251-294 | two successive accepted submissions are at least 5000 ms apart |
| RequestGate.AcceptedSpacing | script.js:251-294 | the `i`-th and `j`-th accepted submissions are at least `5000 * (j - i)` ms apart |
| RequestGate.InFlight | script.js:241-428 | on a history where completions follow requests in flight, accepted submissions outnumber completions by one while a request is in flight and by none otherwise |
| RequestGate.ScreenFor | script.js:320-421 | defines what the response box shows when a request ends: the rendered text of an answer, or the kind of error a thrown error is classified as; stated by EmptyAnswerShowsNothing and MissingAnswerShowsNotice, and used by Gate.Complete |
| RequestGate.EmptyAnswerShowsNothing | script.js:320-338 | an empty-string answer leaves the response box empty |
| RequestGate.MissingAnswerShowsNotice | script.js:331-338 | an answer that is neither a string nor an object shows one paragraph holding "No response received from AI service" |
| RequestGate.Gate.constructor | script.js:19-21 | the gate starts at time 0 with no request in flight |
| RequestGate.Gate.Submit | script.js:236-297 | the method answers as `Decide` does, changes the variables as acceptance does, and keeps them equal to the replay of its history |
| RequestGate.Gate.Complete | script.js:320-429 | the screen is the rendered answer or the classified error; the flag is cleared, the time kept and the history extended |
| RequestGate.Countdown | script.js:273-290 | the countdown shows `wait - 1` down to the first value that is 0 or less, one value per tick: `wait` ticks when `wait >= 1` and one tick otherwise |

## Left out

- DOM and UI: element lookups, the HTML of the notice and error screens,
  the loading overlay, button labels, the character counter, theme, modal,
  scrolling and keyboard shortcuts. The notices are the `SubmitResult` and
  `Screen` values.
- The provider call and `async`/`await`. A completion is an explicit
  `Complete` call carrying the outcome, so requests cannot interleave in
  the model.
- `Date.now()`, `setInterval` and `setTimeout`. Time is a parameter, and the
  countdown returns the numbers it shows instead of updating the page.
- `JSON.stringify` and `String`. They are function parameters of type
  `Value -> string`, with no assumption about what they return.
- Console logging.
- Gate.Complete: requires a request in flight, because the source reaches
  its `finally` block only after accepting a request.
- ResponseText.ClassifyError: the message is `Option<string>`, so only a
  missing or string message is covered. A falsy message that is not a
  string (`0`, `false`, `null`) gets the generic screen in the source as
  `None` does here. A truthy message without an `includes` method (a
  number, `true`, a plain object) makes the `catch` block throw at
  script.js:353. An array message is searched element by element. A thrown
  `null` or `undefined` fails when its `message` is read. None of these
  three is modelled.
- Clearing the query box after a request (script.js:431-433), the second
  click listener, and the PDF export.
- JsValues.Value: there is no `Infinity`, function, symbol or bigint
  value. `JSON.stringify` is a total parameter, so its failure on a circular
  object, which would land in the `catch` block as a generic error, is not
  modelled.
- JavaScript strings are UTF-16 code units. A Dafny `char` is a Unicode
  scalar value, so surrogate pairs are not modelled.
