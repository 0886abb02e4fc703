/**
 * The block type converter behind the "turn into" menu: `blockToType`
 * rebuilds a block as another type, keeping its id and its spans.
 */
module Converter {
  import opened Types

  /** `getBlockRichText`: the block's spans, or none when it has no `rich_text`. */
  function GetBlockRichText(b: Block): (r: seq<Span>)
    ensures b.richText.Some? ==> r == b.richText.value
    ensures b.richText.None? ==> r == []
  {
    b.richText.GetOr([])
  }

  /** The menu's target strings, the `BlockType` union. */
  predicate IsBlockType(target: string) {
    target in {"paragraph", "heading1", "heading2", "heading3", "heading4", "heading5", "heading6",
               "horizontal_rule", "blockquote", "listItemBulleted", "listItemNumbered", "listItemTask", "code"}
  }

  /** The heading level a `headingN` target names, 0 for any other string. */
  function TargetHeadingLevel(target: string): (n: nat)
    ensures n <= 6
  {
    if target == "heading1" then 1
    else if target == "heading2" then 2
    else if target == "heading3" then 3
    else if target == "heading4" then 4
    else if target == "heading5" then 5
    else if target == "heading6" then 6
    else 0
  }

  /** The kind a target string stands for, `None` for an unknown target. */
  function TargetKind(target: string): (k: Option<Kind>)
    ensures k.Some? <==> IsBlockType(target)
  {
    if target == "paragraph" then Some(Paragraph)
    else if TargetHeadingLevel(target) > 0 then Some(Heading(TargetHeadingLevel(target)))
    else if target == "horizontal_rule" then Some(HorizontalRule)
    else if target == "blockquote" then Some(Blockquote(1))
    else if target == "listItemBulleted" then Some(ListItem(1, Unordered))
    else if target == "listItemNumbered" then Some(ListItem(1, Ordered(1)))
    else if target == "listItemTask" then Some(ListItem(1, Task(false)))
    else if target == "code" then Some(Code(None))
    else None
  }

  /** `blockToType`: the block rebuilt as the target type with the same id.
      A rule carries no spans; every other target takes the block's spans. */
  function BlockToType(b: Block, target: string): (r: Option<Block>)
    ensures r.Some? <==> IsBlockType(target)
    ensures r.Some? ==> r.value.id == b.id && Some(r.value.kind) == TargetKind(target)
    ensures r.Some? ==> (if target == "horizontal_rule" then r.value.richText.None?
                         else r.value.richText == Some(GetBlockRichText(b)))
  {
    match TargetKind(target)
    case None => None
    case Some(k) => Some(Block(b.id, k, if k.HorizontalRule? then None else Some(GetBlockRichText(b))))
  }

  /** The target `headingN`. */
  function HeadingTarget(n: nat): (t: string)
    requires 1 <= n <= 6
    ensures IsBlockType(t) && TargetHeadingLevel(t) == n
  {
    var t := "heading" + [(n + 48) as char];
    if n == 1 then assert t == "heading1"; t
    else if n == 2 then assert t == "heading2"; t
    else if n == 3 then assert t == "heading3"; t
    else if n == 4 then assert t == "heading4"; t
    else if n == 5 then assert t == "heading5"; t
    else assert t == "heading6"; t
  }

  /** `headingN` gives a heading of level N. */
  lemma {:induction false} HeadingTargets(b: Block, n: nat)
    requires 1 <= n <= 6
    ensures BlockToType(b, HeadingTarget(n)) == Some(Block(b.id, Heading(n), Some(GetBlockRichText(b))))
  {
  }

  /** List targets start a fresh top-level item: level 1, numbered from 1, unchecked. */
  lemma {:induction false} ListTargets(b: Block)
    ensures BlockToType(b, "listItemBulleted") == Some(Block(b.id, ListItem(1, Unordered), Some(GetBlockRichText(b))))
    ensures BlockToType(b, "listItemNumbered") == Some(Block(b.id, ListItem(1, Ordered(1)), Some(GetBlockRichText(b))))
    ensures BlockToType(b, "listItemTask") == Some(Block(b.id, ListItem(1, Task(false)), Some(GetBlockRichText(b))))
  {
  }

  /** A quote target has level 1, a code target no language, and a rule no spans. */
  lemma {:induction false} OtherTargets(b: Block)
    ensures BlockToType(b, "blockquote") == Some(Block(b.id, Blockquote(1), Some(GetBlockRichText(b))))
    ensures BlockToType(b, "code") == Some(Block(b.id, Code(None), Some(GetBlockRichText(b))))
    ensures BlockToType(b, "horizontal_rule") == Some(Block(b.id, HorizontalRule, None))
    ensures BlockToType(b, "paragraph") == Some(Block(b.id, Paragraph, Some(GetBlockRichText(b))))
  {
  }

  /** A rule converted to text gets empty spans. */
  lemma {:induction false} RuleToText(id: Id, target: string)
    requires IsBlockType(target) && target != "horizontal_rule"
    ensures BlockToType(Block(id, HorizontalRule, None), target).value.richText == Some([])
  {
  }

  /** Converting keeps a block well typed whenever its spans carry
      annotations, which every text block's spans do. */
  lemma {:induction false} ConvertWellTyped(b: Block, target: string)
    requires WellTyped(b) && IsBlockType(target) && (b.kind.IsTextKind() || b.richText.None?)
    ensures WellTyped(BlockToType(b, target).value)
  {
  }

  /** The spans of a code block carry no annotations, so a code block
      converted to a text type is no longer well typed: the serializer and
      the renderer read annotations its spans do not have. */
  lemma {:induction false} CodeToTextIllTyped(id: Id, code: string, target: string)
    requires IsBlockType(target) && target !in {"code", "horizontal_rule"}
    ensures !WellTyped(BlockToType(Block(id, Code(None), Some([Span(code, None, None, None)])), target).value)
  {
    var r := BlockToType(Block(id, Code(None), Some([Span(code, None, None, None)])), target).value;
    assert r.kind.IsTextKind();
    assert r.richText.value[0].annotations.None?;
  }
}
