/**
 * The data model shared by the parser, the serializer, the type converter
 * and the editor: rich-text spans and typed blocks.
 */
module Types {

  datatype Option<+T> = None | Some(value: T) {
    function GetOr(default: T): T {
      match this
      case Some(v) => v
      case None => default
    }
  }

  /** The five independent formatting flags of a span. */
  datatype Annotations = Annotations(bold: bool, italic: bool, strikethrough: bool, underline: bool, code: bool)

  const NoAnnotations := Annotations(false, false, false, false, false)
  const BoldItalic := Annotations(true, true, false, false, false)
  const Bold := Annotations(true, false, false, false, false)
  const Italic := Annotations(false, true, false, false, false)
  const InlineCode := Annotations(false, false, false, false, true)
  const Strikethrough := Annotations(false, false, true, false, false)
  const Underline := Annotations(false, false, false, true, false)

  datatype Image = Image(alt: string, url: string)

  /** A rich-text span. `annotations` is absent in the `{ text }` entries a
      code block stores; `link` holds the href of a link. */
  datatype Span = Span(text: string, annotations: Option<Annotations>, link: Option<string>, image: Option<Image>)

  function Plain(text: string): Span {
    Span(text, Some(NoAnnotations), None, None)
  }

  /** A block id: `LineId(n)` is the string `n.toString()` of a line index,
      `FreshId(k)` the k-th value drawn from `crypto.randomUUID()`. The two
      never coincide, and distinct serials give distinct UUIDs. */
  datatype Id = LineId(line: nat) | FreshId(serial: nat)

  datatype Format = Unordered | Ordered(numbering: nat) | Task(checked: bool)

  datatype Kind =
    | Heading(level: nat)
    | HorizontalRule
    | Blockquote(level: nat)
    | ListItem(level: nat, format: Format)
    | Paragraph
    | Code(language: Option<string>)
  {
    /** The block's `type` string. */
    function TypeName(): string {
      match this
      case Heading(_) => "heading"
      case HorizontalRule => "horizontal_rule"
      case Blockquote(_) => "blockquote"
      case ListItem(_, _) => "listItem"
      case Paragraph => "paragraph"
      case Code(_) => "code"
    }

    /** Kinds whose `rich_text` is rendered through the annotation markup. */
    predicate IsTextKind() {
      Heading? || Blockquote? || ListItem? || Paragraph?
    }
  }

  /** A parsed block. `richText` is `None` where the object has no
      `rich_text` property (a horizontal rule as the parser makes it). */
  datatype Block = Block(id: Id, kind: Kind, richText: Option<seq<Span>>)

  predicate Annotated(spans: seq<Span>) {
    forall i :: 0 <= i < |spans| ==> spans[i].annotations.Some?
  }

  /** What the block types of the source promise: every block but a
      horizontal rule has `rich_text`, and the spans of text kinds carry
      annotations. */
  predicate WellTyped(b: Block) {
    && (b.kind.HorizontalRule? || b.richText.Some?)
    && (b.kind.IsTextKind() ==> b.richText.Some? && Annotated(b.richText.value))
  }

  predicate AllWellTyped(blocks: seq<Block>) {
    forall i :: 0 <= i < |blocks| ==> WellTyped(blocks[i])
  }

  function Ids(blocks: seq<Block>): (ids: seq<Id>)
    ensures |ids| == |blocks|
    ensures forall i :: 0 <= i < |blocks| ==> ids[i] == blocks[i].id
  {
    if blocks == [] then [] else [blocks[0].id] + Ids(blocks[1..])
  }

  predicate Distinct<T(==)>(xs: seq<T>) {
    forall i, j :: 0 <= i < j < |xs| ==> xs[i] != xs[j]
  }
}
