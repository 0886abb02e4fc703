/**
 * The markdown serializer: `convertAnnotationsToMarkdown` wraps one span in
 * the markup of its annotations, `convertBlocksToMarkdown` renders each
 * block with its prefix and terminator and trims the joined result.
 *
 * The current copy renders the spans of paragraphs, list items and quotes
 * through the annotation markup; the legacy copy writes their raw text.
 */
module Serializer {
  import opened Strings
  import opened Types
  import opened LinePredicates
  import opened Lexer

  // ---------------------------------------------------------------------
  // One span

  /** `mark + s + mark` when `on`, and `s` otherwise. */
  function WrapIf(on: bool, mark: string, s: string): string {
    if on then mark + s + mark else s
  }

  /** `[s](href)` when there is a link, and `s` otherwise. */
  function LinkTo(link: Option<string>, s: string): string {
    if link.Some? then "[" + s + "](" + link.value + ")" else s
  }

  /** A span in markdown: the text wrapped in turn in bold, italic,
      strikethrough, underline and code markup, and then in its link. */
  function SpanMarkup(sp: Span): string
    requires sp.annotations.Some?
  {
    var a := sp.annotations.value;
    LinkTo(sp.link,
      WrapIf(a.code, "`",
        WrapIf(a.underline, "__",
          WrapIf(a.strikethrough, "~~",
            WrapIf(a.italic, "*",
              WrapIf(a.bold, "**", sp.text))))))
  }

  /** `convertAnnotationsToMarkdown`. */
  method ConvertAnnotationsToMarkdown(sp: Span) returns (text: string)
    requires sp.annotations.Some?
    ensures text == SpanMarkup(sp)
  {
    var a := sp.annotations.value;
    text := sp.text;
    if a.bold {
      text := "**" + text + "**";
    }
    if a.italic {
      text := "*" + text + "*";
    }
    if a.strikethrough {
      text := "~~" + text + "~~";
    }
    if a.underline {
      text := "__" + text + "__";
    }
    if a.code {
      text := "`" + text + "`";
    }
    if sp.link.Some? {
      text := "[" + text + "](" + sp.link.value + ")";
    }
  }

  function Side(on: bool, mark: string): string {
    if on then mark else ""
  }

  /** The markup written before the text: the wrapper applied last comes first. */
  function Opening(a: Annotations, link: Option<string>): string {
    Side(link.Some?, "[") + (Side(a.code, "`") + (Side(a.underline, "__")
      + (Side(a.strikethrough, "~~") + (Side(a.italic, "*") + Side(a.bold, "**")))))
  }

  /** The markup written after the text: the mirror of `Opening`, then the link target. */
  function Closing(a: Annotations, link: Option<string>): string {
    Side(a.bold, "**") + Side(a.italic, "*") + Side(a.strikethrough, "~~")
    + Side(a.underline, "__") + Side(a.code, "`")
    + (if link.Some? then "](" + link.value + ")" else "")
  }

  /** How many characters of markup a span gets. */
  function MarkupLength(a: Annotations, link: Option<string>): nat {
    (if a.bold then 4 else 0) + (if a.italic then 2 else 0) + (if a.strikethrough then 4 else 0)
    + (if a.underline then 4 else 0) + (if a.code then 2 else 0)
    + (if link.Some? then 4 + |link.value| else 0)
  }

  lemma WrapAround(on: bool, mark: string, open: string, text: string, close: string)
    ensures WrapIf(on, mark, open + text + close) == (Side(on, mark) + open) + text + (close + Side(on, mark))
  {
  }

  lemma LinkAround(link: Option<string>, open: string, text: string, close: string)
    ensures LinkTo(link, open + text + close)
      == (Side(link.Some?, "[") + open) + text + (close + (if link.Some? then "](" + link.value + ")" else ""))
  {
    if link.Some? {
      var h := "](" + link.value + ")";
      calc {
        LinkTo(link, open + text + close);
        "[" + (open + text + close) + h;
        ("[" + open) + text + (close + h);
      }
    }
  }

  /** One wrapper around text that already sits between `open` and `close`. */
  lemma Layer(on: bool, mark: string, w: string, open: string, text: string, close: string)
    requires w == open + text + close
    ensures WrapIf(on, mark, w) == (Side(on, mark) + open) + text + (close + Side(on, mark))
  {
    WrapAround(on, mark, open, text, close);
  }

  /** The closed form of a span's markup: the text sits between all the
      opening markup and all the closing markup, the link target last. */
  lemma {:induction false} SpanMarkupParts(sp: Span)
    requires sp.annotations.Some?
    ensures SpanMarkup(sp) == Opening(sp.annotations.value, sp.link) + sp.text + Closing(sp.annotations.value, sp.link)
  {
    var a := sp.annotations.value;
    var t := sp.text;
    var o1, c1 := Side(a.bold, "**"), Side(a.bold, "**");
    var w1 := WrapIf(a.bold, "**", t);
    assert w1 == o1 + t + c1 by {
      if a.bold { assert w1 == "**" + t + "**"; } else { assert o1 == [] && w1 == t && [] + t + [] == t; }
    }
    var w2 := WrapIf(a.italic, "*", w1);
    Layer(a.italic, "*", w1, o1, t, c1);
    var o2, c2 := Side(a.italic, "*") + o1, c1 + Side(a.italic, "*");
    var w3 := WrapIf(a.strikethrough, "~~", w2);
    Layer(a.strikethrough, "~~", w2, o2, t, c2);
    var o3, c3 := Side(a.strikethrough, "~~") + o2, c2 + Side(a.strikethrough, "~~");
    var w4 := WrapIf(a.underline, "__", w3);
    Layer(a.underline, "__", w3, o3, t, c3);
    var o4, c4 := Side(a.underline, "__") + o3, c3 + Side(a.underline, "__");
    var w5 := WrapIf(a.code, "`", w4);
    Layer(a.code, "`", w4, o4, t, c4);
    var o5, c5 := Side(a.code, "`") + o4, c4 + Side(a.code, "`");
    LinkAround(sp.link, o5, t, c5);
  }

  /** A span's markup is its text and `MarkupLength` characters of markup. */
  lemma {:induction false} SpanMarkupLength(sp: Span)
    requires sp.annotations.Some?
    ensures |SpanMarkup(sp)| == |sp.text| + MarkupLength(sp.annotations.value, sp.link)
  {
    SpanMarkupParts(sp);
    var a := sp.annotations.value;
    var o, c := Opening(a, sp.link), Closing(a, sp.link);
    assert |SpanMarkup(sp)| == |o| + |sp.text| + |c|;
    MarkupSidesLength(a, sp.link);
  }

  lemma {:induction false} MarkupSidesLength(a: Annotations, link: Option<string>)
    ensures |Opening(a, link)| + |Closing(a, link)| == MarkupLength(a, link)
  {
  }

  /** A span without annotations or link is written as its bare text. */
  lemma {:induction false} PlainMarkup(sp: Span)
    requires sp.annotations == Some(NoAnnotations) && sp.link.None?
    ensures SpanMarkup(sp) == sp.text
  {
  }

  /** The nesting order: bold innermost, then italic, strikethrough,
      underline, code, and the link outermost. */
  lemma {:induction false} WrapOrder(text: string, href: string)
    ensures SpanMarkup(Span(text, Some(Annotations(true, true, true, true, true)), Some(href), None))
      == "[`__~~***" + text + "***~~__`](" + href + ")"
  {
  }

  /** An image span has no text and no annotations, so it writes nothing. */
  lemma {:induction false} ImageMarkup(image: Image)
    ensures SpanMarkup(Span([], Some(NoAnnotations), None, Some(image))) == []
  {
  }

  // ---------------------------------------------------------------------
  // Blocks

  /** `rich_text.map(convertAnnotationsToMarkdown).join('')`. */
  function SpansMarkup(spans: seq<Span>): (r: string)
    requires Annotated(spans)
    ensures |r| >= TextLength(spans)
    decreases |spans|
  {
    if spans == [] then [] else SpanMarkup(spans[0]) + SpansMarkup(spans[1..])
  }

  /** `rich_text.map((rt) => rt.text).join('')`. */
  function RawText(spans: seq<Span>): (r: string)
    ensures |r| == TextLength(spans)
    decreases |spans|
  {
    if spans == [] then [] else spans[0].text + RawText(spans[1..])
  }

  function TextLength(spans: seq<Span>): nat
    decreases |spans|
  {
    if spans == [] then 0 else |spans[0].text| + TextLength(spans[1..])
  }

  /** The prefix of a list item. A task item gets a bare checkbox, with no bullet. */
  function ListPrefix(f: Format): string {
    match f
    case Unordered => "- "
    case Ordered(n) => NatToString(n) + ". "
    case Task(checked) => "[" + (if checked then "x" else " ") + "] "
  }

  /** Whether the copy writes the spans of a block of this kind through
      `convertAnnotationsToMarkdown`: the current copy does for every text
      block, the legacy copy only for headings and writes the bare text of
      paragraphs, list items and quotes. */
  predicate MarkedUp(d: Dialect, kind: Kind) {
    kind.IsTextKind() && (d == Current || kind.Heading?)
  }

  /** What the copy's serializer reads of a block: the spans of every block
      but a rule, and their annotations where it writes markup. */
  predicate Writable(d: Dialect, b: Block) {
    && (b.kind.HorizontalRule? || b.richText.Some?)
    && (MarkedUp(d, b.kind) ==> b.richText.Some? && Annotated(b.richText.value))
  }

  predicate AllWritable(d: Dialect, blocks: seq<Block>) {
    forall i :: 0 <= i < |blocks| ==> Writable(d, blocks[i])
  }

  /** A well-typed block can be written by either copy. */
  lemma {:induction false} WellTypedWritable(d: Dialect, blocks: seq<Block>)
    requires AllWellTyped(blocks)
    ensures AllWritable(d, blocks)
  {
    forall i | 0 <= i < |blocks| ensures Writable(d, blocks[i]) {
      assert WellTyped(blocks[i]);
    }
  }

  /** The spans of a text block as the copy writes them. */
  function BodyMarkup(d: Dialect, spans: seq<Span>, kind: Kind): string
    requires MarkedUp(d, kind) ==> Annotated(spans)
  {
    if MarkedUp(d, kind) then SpansMarkup(spans) else RawText(spans)
  }

  /** One block of `convertBlocksToMarkdown`: list items end in one newline,
      every other block in a blank line. */
  function BlockMarkdown(d: Dialect, b: Block): (r: string)
    requires Writable(d, b)
    ensures b.kind.ListItem? ==> |r| > 0 && r[|r| - 1] == '\n'
    ensures !b.kind.ListItem? ==> EndsWith(r, "\n\n")
  {
    match b.kind
    case Heading(level) => Repeat("#", level) + " " + BodyMarkup(d, b.richText.value, b.kind) + "\n\n"
    case Paragraph => BodyMarkup(d, b.richText.value, b.kind) + "\n\n"
    case ListItem(level, format) => Repeat("  ", level) + ListPrefix(format) + BodyMarkup(d, b.richText.value, b.kind) + "\n"
    case Blockquote(level) => Repeat("> ", level) + BodyMarkup(d, b.richText.value, b.kind) + "\n\n"
    case Code(_) => "```\n" + RawText(b.richText.value) + "\n```\n\n"
    case HorizontalRule => "---\n\n"
  }

  /** The blocks rendered one after the other. */
  function BlocksMarkdown(d: Dialect, blocks: seq<Block>): string
    requires AllWritable(d, blocks)
    decreases |blocks|
  {
    if blocks == [] then [] else BlockMarkdown(d, blocks[0]) + BlocksMarkdown(d, blocks[1..])
  }

  /** `trim()`, with only the fact that no whitespace is left at either end. */
  function TrimEnds(s: string): (r: string)
    ensures r == Trim(s)
    ensures r == [] || (!IsSpace(r[0]) && !IsSpace(r[|r| - 1]))
  {
    Trim(s)
  }

  /** `convertBlocksToMarkdown`: the rendered blocks, trimmed. */
  function ConvertBlocksToMarkdown(d: Dialect, blocks: seq<Block>): (r: string)
    requires AllWritable(d, blocks)
    ensures r == [] || (!IsSpace(r[0]) && !IsSpace(r[|r| - 1]))
  {
    TrimEnds(BlocksMarkdown(d, blocks))
  }

  /** No blocks give the empty document. */
  lemma {:induction false} ConvertEmpty(d: Dialect)
    ensures ConvertBlocksToMarkdown(d, []) == []
  {
  }

  lemma {:induction false} AllWritableConcat(d: Dialect, a: seq<Block>, b: seq<Block>)
    requires AllWritable(d, a) && AllWritable(d, b)
    ensures AllWritable(d, a + b)
  {
    forall i | 0 <= i < |a + b| ensures Writable(d, (a + b)[i]) {
      if i < |a| { assert (a + b)[i] == a[i]; } else { assert (a + b)[i] == b[i - |a|]; }
    }
  }

  lemma {:induction false} AllWritableTail(d: Dialect, a: seq<Block>)
    requires a != [] && AllWritable(d, a)
    ensures Writable(d, a[0]) && AllWritable(d, a[1..])
  {
    forall i | 0 <= i < |a[1..]| ensures Writable(d, a[1..][i]) { assert a[1..][i] == a[i + 1]; }
  }

  /** Rendering is compositional: the blocks of a concatenation render one after the other. */
  lemma {:induction false} BlocksMarkdownAppend(d: Dialect, a: seq<Block>, b: seq<Block>)
    requires AllWritable(d, a) && AllWritable(d, b)
    ensures AllWritable(d, a + b)
    ensures BlocksMarkdown(d, a + b) == BlocksMarkdown(d, a) + BlocksMarkdown(d, b)
    decreases |a|
  {
    AllWritableConcat(d, a, b);
    if a == [] {
      assert a + b == b;
    } else {
      var rest := a[1..];
      AllWritableTail(d, a);
      assert (a + b)[0] == a[0] && (a + b)[1..] == rest + b;
      BlocksMarkdownAppend(d, rest, b);
      var h := BlockMarkdown(d, a[0]);
      assert BlocksMarkdown(d, a + b) == h + BlocksMarkdown(d, rest + b);
      assert BlocksMarkdown(d, a) == h + BlocksMarkdown(d, rest);
      AppendAssoc(h, BlocksMarkdown(d, rest), BlocksMarkdown(d, b));
    }
  }

  /** A document holding only a rule is written `---`: the trailing blank line is trimmed. */
  lemma {:induction false} SingleRuleDocument(d: Dialect, id: Id, richText: Option<seq<Span>>)
    ensures ConvertBlocksToMarkdown(d, [Block(id, HorizontalRule, richText)]) == "---"
  {
    var blocks := [Block(id, HorizontalRule, richText)];
    assert blocks[1..] == [];
    var s := BlocksMarkdown(d, blocks);
    RuleMarkdown(d, id, richText);
    assert s == "---\n\n" + BlocksMarkdown(d, []);
    assert s == "---\n\n";
    assert LeadingSpace(s) == 0;
    assert s[0..] == s;
    assert !IsSpace(s[2]) && IsSpace(s[3]) && IsSpace(s[4]);
    var n := TrailingSpace(s);
    assert n == 2;
    assert s[..3] == "---";
  }

  /** A task item is written with its checkbox and no bullet, so the line it
      becomes is not a list item for the parser: it reads back as a paragraph. */
  lemma {:induction false} TaskLineIsNoListItem(checked: bool, text: string)
    ensures !IsListItem(ListPrefix(Task(checked)) + text)
  {
    var line := ListPrefix(Task(checked)) + text;
    assert line[0] == '[';
    assert SpaceEnd(line, 0) == 0;
    assert DigitEnd(line, 0) == 0;
  }

  /** A rule is written `---` with a blank line after it. */
  lemma {:induction false} RuleMarkdown(d: Dialect, id: Id, richText: Option<seq<Span>>)
    ensures BlockMarkdown(d, Block(id, HorizontalRule, richText)) == "---\n\n"
  {
  }

  /** A code fence is written without the block's language. */
  lemma {:induction false} CodeDropsLanguage(d: Dialect, id: Id, language: Option<string>, spans: seq<Span>)
    ensures BlockMarkdown(d, Block(id, Code(language), Some(spans))) == BlockMarkdown(d, Block(id, Code(None), Some(spans)))
    ensures BlockMarkdown(d, Block(id, Code(language), Some(spans))) == "```\n" + RawText(spans) + "\n```\n\n"
  {
  }

  /** Plain spans write their text in either copy. */
  predicate PlainSpans(spans: seq<Span>) {
    forall i :: 0 <= i < |spans| ==> spans[i].annotations == Some(NoAnnotations) && spans[i].link.None?
  }

  lemma {:induction false} PlainSpansMarkup(spans: seq<Span>)
    requires PlainSpans(spans)
    ensures SpansMarkup(spans) == RawText(spans)
    decreases |spans|
  {
    if spans != [] {
      PlainMarkup(spans[0]);
      PlainSpansMarkup(spans[1..]);
    }
  }

  /** The two copies write the same markdown for headings, code and rules,
      and for any block whose spans are plain. */
  lemma {:induction false} DialectsAgree(b: Block)
    requires WellTyped(b)
    requires b.kind.Heading? || b.kind.Code? || b.kind.HorizontalRule?
      || (b.richText.Some? && PlainSpans(b.richText.value))
    ensures BlockMarkdown(Legacy, b) == BlockMarkdown(Current, b)
  {
    if b.richText.Some? && !(b.kind.Heading? || b.kind.Code? || b.kind.HorizontalRule?) {
      PlainSpansMarkup(b.richText.value);
    }
  }

  /** The legacy copy drops the annotations of a paragraph: a bold word is
      written with markup by the current copy and bare by the legacy one. */
  lemma {:induction false} LegacyDropsMarkup(id: Id)
    ensures BlockMarkdown(Current, Block(id, Paragraph, Some([Span("x", Some(Bold), None, None)]))) == "**x**\n\n"
    ensures BlockMarkdown(Legacy, Block(id, Paragraph, Some([Span("x", Some(Bold), None, None)]))) == "x\n\n"
  {
    var spans := [Span("x", Some(Bold), None, None)];
    assert spans[1..] == [];
    assert SpanMarkup(spans[0]) == "**x**";
    assert SpansMarkup(spans) == "**x**" + SpansMarkup([]);
    assert RawText(spans) == "x";
  }

  /** A code block converted to a paragraph, a quote or a list item keeps
      its unannotated spans: the legacy copy writes their bare text, the
      current copy reads annotations they do not have. */
  lemma {:induction false} ConvertedCodeWritable(id: Id, code: string, kind: Kind)
    requires kind.Paragraph? || kind.Blockquote? || kind.ListItem?
    ensures Writable(Legacy, Block(id, kind, Some([Span(code, None, None, None)])))
    ensures BlockMarkdown(Legacy, Block(id, Paragraph, Some([Span(code, None, None, None)]))) == code + "\n\n"
    ensures !Writable(Current, Block(id, kind, Some([Span(code, None, None, None)])))
  {
    var spans := [Span(code, None, None, None)];
    assert spans[1..] == [];
    assert RawText(spans) == code + RawText([]);
    assert !Annotated(spans) by {
      assert spans[0].annotations.None?;
    }
  }
}
