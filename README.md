# renotion block engine, modelled in Dafny

renotion is a Notion-style block editor for React. It turns markdown text
into a flat list of blocks: headings, paragraphs, horizontal rules,
blockquote lines, list items and code blocks. It renders each block as an
editable element and writes the blocks back to markdown whenever one is
edited. This project models the logic under that cycle and proves its
properties:

- **Inline tokenizer** (`getRichText`): splits a line into rich-text spans by
  finding, again and again, the leftmost match of a ten-alternative regular
  expression. The alternatives are image, bold-italic, bold, italic, inline
  code, strikethrough and link. Plain spans fill the gaps between matches
  (module `Inline`).
- **Line predicates**: the regular expressions that classify a line
  (module `LinePredicates`).
- **Block lexer** (`parseLine`, `parseMarkdown`): splits the text at `\n`
  and dispatches each line to a branch in a fixed order. The order is
  heading, rule, blockquote run, fenced code, indented code, list run,
  blank, paragraph. Each branch reports how many lines it consumed (module
  `Lexer`, with the proofs in `LexerProps`).
  - Two copies of this code exist: `lib/lib/helpers.tsx` (the current
    library) and `src/lib/helpers.tsx` (the older application).
  - They differ in three ways: block ids, how many lines an unclosed
    fence consumes, and how a tab in a list indent counts.
  - One parser covers both, parameterised by `Dialect = Current | Legacy`.
- **Serializer** (`convertAnnotationsToMarkdown`, `convertBlocksToMarkdown`):
  turns blocks back into markdown (module `Serializer`). The legacy copy
  writes paragraph, list and quote text without markup.
- **Block-type conversion** (`blockToType`) (module `Converter`).
- **Editor state updaters**: `updateNode` and `convertBlockType` of both
  `Editor.tsx` files (module `Editor`).
- **Caret**: the `findTextNodeAtChar` walk over the DOM's text nodes
  (module `Locator`), and the caret remapper `caretDelta` with
  `restoreCaretToCorrectPosition` (module `Caret`).
- **`removedFromStartLength`** (module `StartRemoval`).
- **Reading back what was written**: `parseMarkdown` applied to the output of
  `convertBlocksToMarkdown`, for code blocks and bullet items (module
  `RoundTrip`).

Block ids in the source are strings:
- `index.toString()`, written here `LineId(index)`;
- `crypto.randomUUID()`, written here `FreshId(k)`. This is the k-th draw
  from a counter `next`, which the parser threads through and returns.

Distinct serials stand for distinct UUIDs.

A block is `Block(id, kind, richText)`. `richText` is `None` for a
horizontal rule as the parser makes it, which is how `'rich_text' in block`
reads in the source. An edit through `updateNode` can give a rule rich text,
as the source's `{ ...block, rich_text }` does.
Code blocks hold one span without annotations, as the source does.

## Model

| member | source | states |
|---|---|---|
| Inline.GetRichText | lib/lib/helpers.tsx:279-402 | The `regex.exec` loop returns exactly the specification tokenization: each leftmost match becomes its span, every gap becomes a plain span, and so does the tail after the last match. |
| Inline.NextMatchLeftmost | lib/lib/helpers.tsx:281-288 | The match `exec` finds from `lastIndex` is the leftmost one: no alternative matches at any earlier position. When there is none, no position from `lastIndex` on matches. |
| Inline.ScanCorrect | lib/lib/helpers.tsx:288-399 | The tokens tile the input from left to right. A plain token covers a non-empty gap with no match in it. A matched token covers the text its alternative matched. A plain token is the last one or is followed by a match, so a gap runs up to the next match. |
| Inline.TokenizeBound | lib/lib/helpers.tsx:279-402 | A line of n characters never yields more than n spans. |
| Inline.TokenizeShapes | lib/lib/helpers.tsx:290-399 | Every span carries annotations, and each one has one of the shapes the branches build. A plain span is non-empty. Bold-italic sets bold and italic. Code sets only code. A link sets underline and has an href. An image has empty text and no annotation set. |
| Inline.TokenizeEmpty | lib/lib/helpers.tsx:388-401 | The empty string yields no spans. |
| Inline.TokenizeNoSpecial | lib/lib/helpers.tsx:388-399 | A line without `!`, `*`, `_`, backtick, `~` or `[` yields one plain span holding the whole line (none when it is empty). |
| LinePredicates.ListItemMatches | lib/lib/helpers.tsx:21-23 | Every line `isListItem` accepts is also matched by the capture pattern of the list branch (lib/lib/helpers.tsx:532-534). |
| LinePredicates.ListMatchCaptures | lib/lib/helpers.tsx:532-540 | The indent capture is whitespace only. The text has no line terminator. The checkbox capture is "", "x" or "X". |
| LinePredicates.ListItemNeedsSpace | lib/lib/helpers.tsx:21-23 | A marker glued to its text (`-item`) is not a list item. |
| LinePredicates.BareMarkerIsListItem | lib/lib/helpers.tsx:21-23 | A lone marker `-` is a list item. |
| LinePredicates.MarkerLenMeaning | lib/lib/helpers.tsx:21-23 | The marker is a single bullet (`-`, `*`, `+`), or digits followed by a dot, and nothing else. |
| LinePredicates.HeadingLevel | lib/lib/helpers.tsx:60-63 | The level is the length of the leading run of `#`. |
| LinePredicates.HeadingText | lib/lib/helpers.tsx:45-47 | The text is a suffix of the line. It differs from the line exactly when 1 to 6 `#` are followed by whitespace, and then it does not start with whitespace. |
| LinePredicates.BlockquoteLevel | lib/lib/helpers.tsx:53-58 | The level is at least 1 exactly when the line starts with `>`. |
| LinePredicates.StripBlockquoteMarkers | lib/lib/helpers.tsx:65-67 | The result is a suffix of the line that does not start with `>` or whitespace. A line without `>` in front is unchanged. |
| LinePredicates.OnlyMarkerIffStripsToEmpty | lib/lib/helpers.tsx:65-71 | A quote line is marker-only exactly when stripping its markers leaves nothing. |
| LinePredicates.OnlyMarkerHasNoText | lib/lib/helpers.tsx:49-51 | A marker-only line never has "`>` and text". |
| LinePredicates.HasTextIffNotOnlyMarker | lib/lib/helpers.tsx:49-71 | On a quote line, "has `>` and text" is exactly "not marker-only". |
| LinePredicates.QuoteLineRoundTrip | lib/lib/helpers.tsx:53-67 | The serializer's prefix `'> '.repeat(n)` is read back as level n, and stripping it returns the text. |
| LinePredicates.HeadingParts | lib/lib/helpers.tsx:41-63 | On a heading line that starts with `#`, the level is 1 to 6 and the text is what follows the `#` run and one space. |
| LinePredicates.IndentedHeadingHasLevelZero | lib/lib/helpers.tsx:41-63 | `isHeading` trims the line but `getHeadingLevel` and `getHeadingText` do not. An indented heading therefore gets level 0 and keeps its `#`s in the text. |
| LinePredicates.HeadingLineRoundTrip | lib/lib/helpers.tsx:41-63 | A serialized heading line `'#'.repeat(n) + ' ' + text` is a heading again, with level n and the same text. |
| LinePredicates.RuleIsNoOtherKind | lib/lib/helpers.tsx:33-43 | A rule line is never a heading, so the rule branch sees every rule. |
| LinePredicates.RuleLine | lib/lib/helpers.tsx:33-39 | `---` is a rule and not a heading. |
| LinePredicates.BlankIsNoOtherKind | lib/lib/helpers.tsx:21-43 | A blank line matches none of the block predicates. |
| LinePredicates.FenceIsNoOtherKind | lib/lib/helpers.tsx:25-43 | A fence line is not a heading, a rule or a quote. |
| LinePredicates.QuoteIsNoOtherKind | lib/lib/helpers.tsx:29-43 | A quote line is not a heading or a rule. |
| LinePredicates.ListLineIsNoQuoteOrFence | lib/lib/helpers.tsx:21-31 | A list line is not a quote and not a fence. |
| Lexer.NewId | lib/lib/helpers.tsx:415 | The current copy draws a fresh UUID and advances the counter. The legacy copy uses the line index and leaves the counter alone. |
| Lexer.ParseMarkdown | lib/lib/helpers.tsx:620-636 | The line loop, advancing by `consumed`, returns `Parse`: the blocks of each non-blank step, in order. |
| Lexer.ParseLine | lib/lib/helpers.tsx:404-608 | The method returns the dispatch chain `LineStep`. |
| Lexer.LineStepChain | lib/lib/helpers.tsx:404-608 | The branches are tried in the source's order. The rule and paragraph blocks take the line index as id. A blank, unindented line yields no step. |
| Lexer.ParseQuote | lib/lib/helpers.tsx:433-467 | The quote loop merges, skips and pushes lines exactly as `QuoteStep` specifies. |
| Lexer.QuoteChildren | lib/lib/helpers.tsx:436-461 | At every point of the run, a merge onto the last child has a last child to merge onto. |
| Lexer.ParseFence | lib/lib/helpers.tsx:469-497 | The fence loop returns `FenceStep`. |
| Lexer.ParseIndented | lib/lib/helpers.tsx:499-524 | The indented-code loop returns `IndentStep`. |
| Lexer.ParseList | lib/lib/helpers.tsx:526-593 | The list loop returns `ListStep`. |
| Lexer.CodeContent | lib/lib/helpers.tsx:474-487 | Appending each line plus `\n`, then dropping the last `\n`, gives the lines joined by `\n`. |
| Lexer.FenceEnd | lib/lib/helpers.tsx:476-483 | The fence search stops at the first line that starts with the opening fence, or at the end of input. |
| Lexer.QuoteEnd | lib/lib/helpers.tsx:436 | The run of lines that start with `>` is maximal. |
| Lexer.ListEnd | lib/lib/helpers.tsx:531 | The run of list lines is maximal. |
| Lexer.IndentEnd | lib/lib/helpers.tsx:504-510 | The run of indented lines is maximal. |
| LexerProps.ParseOk | lib/lib/helpers.tsx:620-636 | In either dialect, every parsed document has pairwise distinct block ids. Every block is well typed: rich text wherever the type carries it, and annotated spans outside code. There are never more blocks than lines. |
| LexerProps.ParsePolicy | src/lib/helpers.tsx:376-572 | In the legacy copy every id is a line index. In the current copy a block has a line-index id exactly when it is a paragraph or a rule. Every other block has a fresh UUID. |
| LexerProps.LineStepNone | lib/lib/helpers.tsx:595-598 | A line yields nothing exactly when it is blank and not indented. A blank line of four spaces starts an indented code block. |
| LexerProps.HeadingBlock | lib/lib/helpers.tsx:410-422 | A heading line yields one heading block with `getHeadingLevel` and the tokens of `getHeadingText`, and consumes one line. |
| LexerProps.RuleBlock | lib/lib/helpers.tsx:425-430 | A rule line yields one rule block without rich text, with the line index as id. |
| LexerProps.QuoteTaken | lib/lib/helpers.tsx:433 | A `>` line always goes to the quote branch. |
| LexerProps.QuoteBlocks | lib/lib/helpers.tsx:433-467 | The quote branch consumes the maximal run of `>` lines and yields at most one block per line, each a quote of level at least 1. |
| LexerProps.QuoteChildrenOk | lib/lib/helpers.tsx:436-461 | Quote children get distinct fresh ids (current) or their own line's index (legacy), and they are well typed. |
| LexerProps.FenceTaken | lib/lib/helpers.tsx:469-470 | A fence line always goes to the fence branch: no earlier branch accepts it. |
| LexerProps.FenceBlock | lib/lib/helpers.tsx:469-497 | The fence branch yields one code block. Its language is the trimmed rest of the opening line, or none. Its content is the lines up to the closing fence, joined by `\n`. It consumes through the closing fence. An unclosed fence consumes to the end in the current copy, and one line past the end in the legacy copy (src/lib/helpers.tsx:461). |
| LexerProps.IndentTaken | lib/lib/helpers.tsx:499-501 | An indented line that is not a heading or rule goes to the indented-code branch, ahead of the list branch. |
| LexerProps.IndentBlock | lib/lib/helpers.tsx:499-524 | The indented branch consumes the maximal run of indented lines and yields one code block, without a language, holding them joined by `\n`. |
| LexerProps.ListTaken | lib/lib/helpers.tsx:526-527 | A list line that no earlier branch takes goes to the list branch. |
| LexerProps.ListBlocks | lib/lib/helpers.tsx:526-593 | The list branch consumes the maximal run of list lines and yields exactly one list item per line. |
| LexerProps.ListItemsCount | lib/lib/helpers.tsx:531-588 | Every line of the run is matched by the capture pattern, so no line is dropped. |
| LexerProps.ParagraphBlock | lib/lib/helpers.tsx:600-607 | Any other non-blank line is one paragraph of its tokens, with the line index as id. |
| LexerProps.ParseEmpty | lib/lib/helpers.tsx:620-636 | The empty document parses to no blocks. |
| LexerProps.ListLevelTabs | lib/lib/helpers.tsx:552-555 | Without tabs, both copies give half the indent. A tab counts four columns in the current copy and one in the legacy copy (src/lib/helpers.tsx:519). |
| LexerProps.OrderedNumbering | lib/lib/helpers.tsx:545-567 | A marker `n.` yields an ordered item numbered n. |
| LexerProps.TaskChecked | lib/lib/helpers.tsx:547-549 | A bullet with a checkbox is a task, checked exactly when the box holds `x` or `X`. |
| Serializer.ConvertAnnotationsToMarkdown | lib/lib/helpers.tsx:692-713 | The method returns the specification markup of a span. |
| Serializer.SpanMarkupParts | lib/lib/helpers.tsx:692-713 | The markup is the text between an opening and a closing marker sequence that depend only on the annotations and the link. |
| Serializer.SpanMarkupLength | lib/lib/helpers.tsx:692-713 | The markup adds exactly the markers' length to the text. |
| Serializer.PlainMarkup | lib/lib/helpers.tsx:692-713 | A span without annotations or link is written as its text. |
| Serializer.WrapOrder | lib/lib/helpers.tsx:694-711 | The wrappers nest in source order, bold innermost and link outermost: `` [`__~~***text***~~__`](href) ``. |
| Serializer.ImageMarkup | lib/lib/helpers.tsx:692-713 | An image span is written as nothing: the serializer drops images. |
| Serializer.WellTypedWritable | src/lib/helpers.tsx:678-716 | Either copy of the serializer can write well-typed blocks. |
| Serializer.ConvertedCodeWritable | src/lib/helpers.tsx:686-703 | A code block converted to a paragraph, quote or list item keeps its unannotated span. The legacy copy writes the bare text of such blocks (a paragraph becomes the code plus a blank line). The current copy would read annotations the span lacks. |
| Serializer.BlockMarkdown | lib/lib/helpers.tsx:718-750 | A list item ends in one newline. Every other block ends in two. |
| Serializer.ConvertBlocksToMarkdown | lib/lib/helpers.tsx:715-755 | The document is trimmed: it is empty, or it neither starts nor ends with whitespace. |
| Serializer.ConvertEmpty | lib/lib/helpers.tsx:715-755 | No blocks give the empty document. |
| Serializer.BlocksMarkdownAppend | lib/lib/helpers.tsx:716-752 | Before the trim, the markdown of a concatenation is the concatenation of the markdowns. |
| Serializer.SingleRuleDocument | lib/lib/helpers.tsx:746-753 | A document of one rule is `---`. |
| Serializer.RuleMarkdown | lib/lib/helpers.tsx:746-747 | A rule block is written `---` plus a blank line, whatever rich text it carries. |
| Serializer.TaskLineIsNoListItem | lib/lib/helpers.tsx:731-734 | A task item's line `[x] text` or `[ ] text` has no bullet, so the parser never reads it back as a list item. |
| Serializer.CodeDropsLanguage | lib/lib/helpers.tsx:742-745 | A code block is written as a bare fence around its raw text. The language is lost. |
| Serializer.PlainSpansMarkup | lib/lib/helpers.tsx:721-740 | For unannotated spans without links, markup and raw text coincide. |
| Serializer.DialectsAgree | src/lib/helpers.tsx:678-716 | The two copies write headings, code, rules and blocks of plain spans identically. |
| Serializer.LegacyDropsMarkup | src/lib/helpers.tsx:686-687 | The legacy copy writes a bold paragraph `x` as `x`. The current copy writes `**x**`. |
| Converter.GetBlockRichText | lib/lib/helpers.tsx:1013-1018 | A block's rich text, or nothing for a rule. |
| Converter.TargetKind | lib/lib/helpers.tsx:1025-1079 | There is a kind exactly for the thirteen names of the block-type union. |
| Converter.BlockToType | lib/lib/helpers.tsx:1020-1081 | The result is null exactly for an unknown type name. Otherwise it keeps the id, has the named kind, and carries the block's rich text, except that a rule carries none. |
| Converter.HeadingTargets | lib/lib/helpers.tsx:1029-1040 | `headingN` gives a level-N heading with the same id and text. |
| Converter.ListTargets | lib/lib/helpers.tsx:1050-1075 | The three list targets give level-1 items: unordered; ordered numbered 1; unchecked task. |
| Converter.OtherTargets | lib/lib/helpers.tsx:1025-1079 | Paragraph, level-1 blockquote, code without language, and rule without rich text. |
| Converter.RuleToText | lib/lib/helpers.tsx:1013-1018 | A rule converted to a text type gets empty rich text. |
| Converter.ConvertWellTyped | lib/lib/helpers.tsx:1020-1081 | Converting a well-typed text block or rule gives a well-typed block. |
| Converter.CodeToTextIllTyped | lib/lib/helpers.tsx:1076-1077 | Converting a code block to a text type keeps its unannotated span. The result is ill typed, and the serializer reading `annotations` would fail on it. |
| Editor.UpdateBlocks | lib/Editor.tsx:53-58 | Every block with the given id gets the new rich text and keeps its id and type. Every other block is unchanged. |
| Editor.UpdateNode | lib/Editor.tsx:53-67 | The new state is `UpdateBlocks`. Only with a listener must the copy's serializer be able to write the new state, since only then is it written. A writable state stays writable, and a well-typed state stays well typed. `onChange` receives the markdown of the new state exactly when a listener is set. |
| Editor.EditConvertedCode | lib/Editor.tsx:53-67 | Editing a code block just converted to a paragraph turns a state the current copy cannot write into one it can; `onChange` receives the new text. |
| Editor.UpdatePreservesWritable | src/Editor.tsx:46-57 | Writing annotated spans into blocks the serializer can write leaves blocks it can write. |
| Editor.UpdatePreservesWellTyped | src/Editor.tsx:46-57 | Updating well-typed blocks with annotated spans keeps them well typed. |
| Editor.UpdateKeepsIds | lib/Editor.tsx:56-58 | The id list is unchanged. An unknown id leaves the state unchanged. |
| Editor.UpdateTwice | lib/Editor.tsx:53-67 | Two updates of one block amount to the second. |
| Editor.UpdatesCommute | lib/Editor.tsx:53-67 | Updates of two different blocks commute. |
| Editor.FindBlock | lib/Editor.tsx:71-72 | The first block with the id, or none when no block has it. |
| Editor.ConvertBlockType | lib/Editor.tsx:69-82 | An unknown id leaves the state unchanged. Blocks with other ids are unchanged, and the id list is kept. |
| Editor.SameTypeTargets | lib/Editor.tsx:73-74 | The "already that type" test holds only for paragraph, blockquote, code and rule. A heading or list item is compared with names like `heading1` and is always re-converted. |
| Editor.ConvertSameTypeUnchanged | lib/Editor.tsx:73-74 | A block already of the target type leaves the state unchanged. |
| Editor.ConvertReplaces | lib/Editor.tsx:75-80 | Otherwise every block with the id is replaced by the conversion of the first one, which has the target kind. |
| Editor.HeadingReconverted | lib/Editor.tsx:69-82 | Converting a heading to `headingN` rebuilds it at level N, even when it already has that level. |
| Editor.ConvertChangesOne | lib/Editor.tsx:69-82 | With distinct ids, only the block with the id changes. |
| Locator.FindTextNodeAtChar | lib/lib/helpers.tsx:248-277 | The walk returns the path and offset of `Locate` over the text nodes in document order, or no node and offset 0. |
| Locator.Traverse | lib/lib/helpers.tsx:251-274 | The recursive walk gives `Locate` over the subtree's text nodes. When it finds nothing, the running count has grown by their total length. |
| Locator.LocateFound | lib/lib/helpers.tsx:256-267 | A node is found exactly when there is a text node and the count lies between 0 and the total text length, both ends included. |
| Locator.LocateOffset | lib/lib/helpers.tsx:256-264 | The node found is the first text node whose range holds the count: no earlier node's range holds it, so at the boundary between two nodes the earlier one wins. The offset is the count minus the length of the text before that node, and lies within the node's text. |
| Locator.LocateAppend | lib/lib/helpers.tsx:268-271 | Walking two child lists in sequence equals walking their concatenation. |
| Caret.CaretDelta | src/hooks/helpers.ts:36-80 | The moved caret `cp + delta` is at the end of `current` when the caret was at or past the end of `before`. Otherwise it sits after as many characters as `before` had non-marker characters in front of the caret, clipped to `current`'s length. |
| Caret.CorrectedOffset | src/hooks/helpers.ts:36-80 | The remapped caret always lies within `current`. |
| Caret.NoMarkerKeepsOffset | src/hooks/helpers.ts:63-75 | Without `*` or `_` in front of the caret, the caret keeps its offset, clipped to `current`'s length. |
| Caret.MarkerRunSnaps | src/hooks/helpers.ts:49-58 | A caret anywhere inside a run of markers, or at its end, lands where a caret at the run's start lands. This includes a run at the very start of the text. |
| Caret.VisibleCount | src/hooks/helpers.ts:49-61 | The visible characters in front of the caret are all of them minus the markers, wherever the markers sit. So each marker in front of the caret moves it one place left. |
| Caret.MarkersShiftLeft | src/hooks/helpers.ts:49-61 | For marker-free text followed by a run of markers, the caret at the end moves left by the length of the run. |
| Caret.CorrectedMonotone | src/hooks/helpers.ts:36-80 | Remapping keeps carets in order. |
| Caret.RestoredOffset | src/hooks/helpers.ts:9-17 | Without a remap the saved offset is kept. With one, the offset lies within the current text. |
| Caret.RestoreOffset | src/hooks/helpers.ts:9-17 | The method computes `RestoredOffset`. A remap happens exactly when both texts are non-empty and differ. |
| Caret.RestoreCaretToCorrectPosition | src/hooks/helpers.ts:3-34 | The caret goes to the text node and offset `findTextNodeAtChar` locates for the restored offset. Without such a node, the selection is left alone. |
| Caret.RemappedCaretIsPlaced | src/hooks/helpers.ts:9-23 | When the element has text nodes holding the current text, a remapped caret is always placed. |
| Caret.UnmappedCaret | src/hooks/helpers.ts:9-23 | Without a remap, the caret is placed exactly when the saved offset lies within the element's text. |
| StartRemoval.RemovedFromStartLength | lib/lib/helpers.tsx:638-644 | The result is one less than the index of the first occurrence of `curr[0]` in `prev`. It is 0 when `curr` is empty or `curr[0]` does not occur. |
| StartRemoval.RemovedPrefix | lib/lib/helpers.tsx:638-644 | Removing k characters from the front, where the new first character did not occur among them, gives k - 1. |
| StartRemoval.OneRemovedReadsAsNone | lib/lib/helpers.tsx:638-644 | An unchanged text gives -1. One removed character gives 0, the same value as "no start removal". |
| StartRemoval.RemovedCountPrefix | lib/lib/helpers.tsx:638-644 | The corrected count gives k for k characters removed, and 0 for an unchanged text. |
| RoundTrip.CodeRoundTrip | lib/lib/helpers.test.ts:547-555 | A document of one code block, serialized and parsed again, is one code block with the same text, provided no line of the text starts with three backticks. The language is not kept. |
| RoundTrip.CodeDocument | lib/lib/helpers.tsx:742-753 | A document of one code block is written as its text between two fence lines, with nothing after the closing fence. |
| RoundTrip.FencedLines | lib/lib/helpers.tsx:621-622 | Splitting the written code block at `\n` gives the opening fence, the lines of the text, and the closing fence. |
| RoundTrip.FencedParse | lib/lib/helpers.tsx:469-497 | The parser reads those lines as one code block whose text is the lines in between, when none of them starts with three backticks. |
| RoundTrip.UnorderedItemRoundTrip | lib/lib/helpers.test.ts:557-563 | A bullet item of level 0 or 1, written by the serializer and parsed again, is one bullet item of the same level, whose spans are the tokens of the text written for it. This holds when that text stays on one line and starts with neither whitespace nor `[`. |
| RoundTrip.BulletLine | lib/lib/helpers.tsx:526-593 | A written bullet line of level 0 or 1 matches the list pattern with its indent, the bullet `-`, no checkbox and its text. No earlier test of `parseLine` takes it. |
| RoundTrip.BulletParse | lib/lib/helpers.tsx:526-593 | Such a line, followed by the empty line after its newline, is read as one bullet item of the indent's level. |
| RoundTrip.ItemLines | lib/lib/helpers.tsx:621-622 | A one-line item and its newline split into the line and one empty line. |
| RoundTrip.DeepItemReadsAsCode | lib/lib/helpers.tsx:725-737 | A bullet item of level 2 or more is written behind at least four spaces, so it is read back as one code block. |
| RoundTrip.DeepLine | lib/lib/helpers.tsx:499-501 | Such a line passes the indented-code test and is no heading or rule. |
| RoundTrip.DeepParse | lib/lib/helpers.tsx:499-524 | An indented line followed by an empty line is read as one code block. |

## Left out

- Rendering and the DOM: `markdownToBlock`, `richTextToHTML`, `parseHTMLToRichText` and `getCaretOffsetRelativeToParent` are not part of this model. Neither are the React components, drag and drop (`handleDragEnd`), the hover managers or the code highlighter. The DOM enters only as the `Node` tree that `findTextNodeAtChar` walks.
- `crypto.randomUUID()` is modelled as a counter of fresh serials, `FreshId(k)`. Distinct serials stand for distinct UUIDs; a UUID collision is not modelled.
- String lengths and offsets count Unicode code points. JavaScript counts UTF-16 units, and the tokenizer's `u` flag matches by code points. Text outside the Basic Multilingual Plane therefore gets different caret offsets here than in a browser.
- The legacy `blockToType` that `src/Editor.tsx` imports (from `src/lib`) is not part of this model. Both editors are modelled with the current `blockToType`.
- Editor.ConvertBlockType: requires a name of the block-type union, as the TypeScript type demands. The source would store `null` in the state for any other string.
- Editor.UpdateNode: the state update through `setParsed` and the `onChange` call are modelled as returning the new state together with the markdown that is handed to `onChange`. React's batching of state updates is not modelled. With a listener, the new state must be one the copy's serializer can write; the source would throw there instead.
- Editor.UpdateNode: in the legacy editor the `useCallback` around `updateNode` has no dependencies (src/Editor.tsx:46-57), so it keeps calling the `onChange` of the first render even after the prop changes. The `hasListener` flag stands for the current prop and cannot express that stale callback.
- Serializer.ConvertBlocksToMarkdown: requires annotations on the spans that the copy writes with markup. In the current copy that is every text block. In the legacy copy it is headings only, since it writes the bare text of paragraphs, list items and quotes. The serializer reads `rt.annotations.bold`, which throws on the unannotated span that a code block converted to text still carries (`Converter.CodeToTextIllTyped` and `Serializer.ConvertedCodeWritable` state that case).
- The unused `patterns` table of both helper files is not modelled.
- A whole-document round trip, parse of serialize of parse, is not proved. It fails in general: task items lose their bullet, code loses its language, images vanish, and link spans grow `__`.
  - What is proved: headings, quotes and rules line by line (`LinePredicates.HeadingLineRoundTrip`, `LinePredicates.QuoteLineRoundTrip`, `LinePredicates.RuleLine`); a one-block code document (`RoundTrip.CodeRoundTrip`); a bullet item of level 0 or 1 (`RoundTrip.UnorderedItemRoundTrip`).
  - Failures stated as lemmas: `Serializer.TaskLineIsNoListItem`, `Serializer.CodeDropsLanguage`, `Serializer.ImageMarkup` and `RoundTrip.DeepItemReadsAsCode`.
  - Other inputs on which the round trip fails. `~~~\n```\n~~~` is one code block whose text is a line of three backticks. It is written as three backtick lines and read back as two blocks, because the parser closes a fence at any line starting with the fence (lib/lib/helpers.tsx:476).
  - `# ![a](u)` is a heading whose only span is an image. It is written as `#`, which is read back as a paragraph.
  - `# h\n  \t- a` holds an item of level 3 (two spaces plus a tab count 3). It is written behind six spaces and read back as indented code.
  - A document whose first block is a level-1 item loses that item's indent to the final `trim()`, so it reads back at level 0.
- LexerProps.OrderedNumbering: the number is the exact decimal value of the marker's digits. The source's `parseInt` gives a double (lib/lib/helpers.tsx:567, src/lib/helpers.tsx:531). Above 2^53 it rounds. From 10^21 on, `${block.numbering}` (lib/lib/helpers.tsx:730) prints exponent notation, so such an item is not written back with its digits.

## Findings

| source | as written | input that shows it | evidently intended | confidence | as-written member | corrected member |
|---|---|---|---|---|---|---|
| lib/lib/helpers.tsx:638-644 | `removedFromStartLength` returns `i - 1`, where `i` is the first index of `curr[0]` in `prev` | `prev = "abc"`, `curr = "bc"`: one character was removed, but the result is 0, which is also the "no start removal" value. `prev = curr = "abc"` gives -1. | return `i`, the number of characters in front of the new first character | medium, not executed (the function has no caller in the repository) | StartRemoval.OneRemovedReadsAsNone | StartRemoval.RemovedCountPrefix |
