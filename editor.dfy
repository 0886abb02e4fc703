/**
 * The two state updaters of the editor component. `updateNode` puts the
 * spans an editable block reports back into the block list and hands the
 * new document to `onChange`; `convertBlockType` turns a block into
 * another type. Both copies of the component have the same updaters; they
 * differ only in the serializer they call, so the dialect is a parameter.
 * React's state cell is left out: each updater maps the previous list to
 * the next one.
 */
module Editor {
  import opened Strings
  import opened Types
  import opened Lexer
  import opened Serializer
  import opened Converter

  /** The list with the spans of every block whose id is `blockId` replaced by `updated`. */
  function UpdateBlocks(prev: seq<Block>, updated: seq<Span>, blockId: Id): (next: seq<Block>)
    ensures |next| == |prev|
    ensures forall i :: 0 <= i < |prev| ==>
      next[i] == (if prev[i].id == blockId then Block(prev[i].id, prev[i].kind, Some(updated)) else prev[i])
  {
    seq(|prev|, i requires 0 <= i < |prev| =>
      if prev[i].id == blockId then Block(prev[i].id, prev[i].kind, Some(updated)) else prev[i])
  }

  /** `updateNode`: the next list, and the markdown passed to `onChange`
      when there is a listener. Only the new list is written, and only when
      there is a listener, so only then must the copy's serializer be able
      to write it. The edit keeps a writable list writable and a well-typed
      list well typed. */
  function UpdateNode(d: Dialect, prev: seq<Block>, updated: seq<Span>, blockId: Id, hasListener: bool)
    : (r: (seq<Block>, Option<string>))
    requires Annotated(updated)
    requires hasListener ==> AllWritable(d, UpdateBlocks(prev, updated, blockId))
    ensures r.0 == UpdateBlocks(prev, updated, blockId)
    ensures AllWritable(d, prev) ==> AllWritable(d, r.0)
    ensures AllWellTyped(prev) ==> AllWellTyped(r.0)
    ensures r.1 == if hasListener then Some(ConvertBlocksToMarkdown(d, r.0)) else None
  {
    var next := UpdateBlocks(prev, updated, blockId);
    assert AllWritable(d, prev) ==> AllWritable(d, next) by {
      if AllWritable(d, prev) {
        UpdatePreservesWritable(d, prev, updated, blockId);
      }
    }
    assert AllWellTyped(prev) ==> AllWellTyped(next) by {
      if AllWellTyped(prev) {
        UpdatePreservesWellTyped(prev, updated, blockId);
      }
    }
    (next, if hasListener then Some(ConvertBlocksToMarkdown(d, next)) else None)
  }

  /** Editing a code block just converted to a paragraph: the current copy
      cannot write the list before the edit, since the converted span has no
      annotations, but it can after the edit, and `onChange` receives the
      new text. */
  lemma {:induction false} EditConvertedCode(id: Id, code: string, text: string)
    requires text != [] && !IsSpace(text[0]) && !IsSpace(text[|text| - 1])
    ensures var prev := [Block(id, Paragraph, Some([Span(code, None, None, None)]))];
      var updated := [Span(text, Some(NoAnnotations), None, None)];
      && !AllWritable(Current, prev)
      && AllWritable(Current, UpdateBlocks(prev, updated, id))
      && UpdateNode(Current, prev, updated, id, true).1 == Some(text)
  {
    var prev := [Block(id, Paragraph, Some([Span(code, None, None, None)]))];
    var updated := [Span(text, Some(NoAnnotations), None, None)];
    assert !Writable(Current, prev[0]) by {
      assert !Annotated(prev[0].richText.value) by {
        assert prev[0].richText.value[0].annotations.None?;
      }
    }
    var next := UpdateBlocks(prev, updated, id);
    assert next == [Block(id, Paragraph, Some(updated))];
    assert Annotated(updated) by {
      assert updated[0].annotations.Some?;
    }
    assert Writable(Current, next[0]);
    assert next[1..] == [];
    assert updated[1..] == [];
    PlainMarkup(updated[0]);
    assert SpansMarkup(updated) == text + SpansMarkup([]);
    assert BlocksMarkdown(Current, next) == text + "\n\n";
    TrimPadded(text, "\n\n");
  }

  lemma {:induction false} UpdatePreservesWellTyped(prev: seq<Block>, updated: seq<Span>, blockId: Id)
    requires AllWellTyped(prev) && Annotated(updated)
    ensures AllWellTyped(UpdateBlocks(prev, updated, blockId))
  {
    var next := UpdateBlocks(prev, updated, blockId);
    forall i | 0 <= i < |next|
      ensures WellTyped(next[i])
    {
      assert WellTyped(prev[i]);
    }
  }

  lemma {:induction false} UpdatePreservesWritable(d: Dialect, prev: seq<Block>, updated: seq<Span>, blockId: Id)
    requires AllWritable(d, prev) && Annotated(updated)
    ensures AllWritable(d, UpdateBlocks(prev, updated, blockId))
  {
    var next := UpdateBlocks(prev, updated, blockId);
    forall i | 0 <= i < |next|
      ensures Writable(d, next[i])
    {
      assert Writable(d, prev[i]);
    }
  }

  /** Updating keeps every id in place, and a list without the id is left as it was. */
  lemma {:induction false} UpdateKeepsIds(prev: seq<Block>, updated: seq<Span>, blockId: Id)
    ensures Ids(UpdateBlocks(prev, updated, blockId)) == Ids(prev)
    ensures (forall i :: 0 <= i < |prev| ==> prev[i].id != blockId) ==> UpdateBlocks(prev, updated, blockId) == prev
  {
    var next := UpdateBlocks(prev, updated, blockId);
    assert forall i :: 0 <= i < |prev| ==> Ids(next)[i] == Ids(prev)[i];
  }

  /** Updating twice with the same spans is the same as updating once, and
      the last update of a block wins. */
  lemma {:induction false} UpdateTwice(prev: seq<Block>, first: seq<Span>, second: seq<Span>, blockId: Id)
    ensures UpdateBlocks(UpdateBlocks(prev, first, blockId), second, blockId) == UpdateBlocks(prev, second, blockId)
  {
    var a := UpdateBlocks(UpdateBlocks(prev, first, blockId), second, blockId);
    var b := UpdateBlocks(prev, second, blockId);
    assert forall i :: 0 <= i < |prev| ==> a[i] == b[i];
  }

  /** Updates of two different ids commute. */
  lemma {:induction false} UpdatesCommute(prev: seq<Block>, s: seq<Span>, t: seq<Span>, x: Id, y: Id)
    requires x != y
    ensures UpdateBlocks(UpdateBlocks(prev, s, x), t, y) == UpdateBlocks(UpdateBlocks(prev, t, y), s, x)
  {
    var a := UpdateBlocks(UpdateBlocks(prev, s, x), t, y);
    var b := UpdateBlocks(UpdateBlocks(prev, t, y), s, x);
    assert forall i :: 0 <= i < |prev| ==> a[i] == b[i];
  }

  // ---------------------------------------------------------------------
  // Changing a block's type

  /** `prev.find((block) => block.id === id)`: the index of the first block with the id. */
  function FindBlock(prev: seq<Block>, id: Id): (r: Option<nat>)
    ensures r.Some? ==> r.value < |prev| && prev[r.value].id == id
    ensures r.Some? ==> forall k :: 0 <= k < r.value ==> prev[k].id != id
    ensures r.None? ==> forall k :: 0 <= k < |prev| ==> prev[k].id != id
    decreases |prev|
  {
    if prev == [] then None
    else if prev[0].id == id then Some(0)
    else
      match FindBlock(prev[1..], id)
      case None => None
      case Some(k) => Some(k + 1)
  }

  /** The list with every block whose id is `id` replaced by `converted`. */
  function ReplaceBlocks(prev: seq<Block>, id: Id, converted: Block): (next: seq<Block>)
    ensures |next| == |prev|
    ensures forall i :: 0 <= i < |prev| ==> next[i] == (if prev[i].id == id then converted else prev[i])
  {
    seq(|prev|, i requires 0 <= i < |prev| => if prev[i].id == id then converted else prev[i])
  }

  /** `convertBlockType`: unchanged when no block has the id or the first
      one's type string is already the target; otherwise every block with
      the id becomes the first one converted to the target. */
  function ConvertBlockType(prev: seq<Block>, id: Id, target: string): (next: seq<Block>)
    requires IsBlockType(target)
    ensures |next| == |prev|
    ensures (forall k :: 0 <= k < |prev| ==> prev[k].id != id) ==> next == prev
    ensures forall k :: 0 <= k < |prev| && prev[k].id != id ==> next[k] == prev[k]
    ensures Ids(next) == Ids(prev)
  {
    match FindBlock(prev, id)
    case None => prev
    case Some(k) =>
      if prev[k].kind.TypeName() == target then prev
      else
        var next := ReplaceBlocks(prev, id, BlockToType(prev[k], target).value);
        assert forall i :: 0 <= i < |prev| ==> Ids(next)[i] == Ids(prev)[i];
        next
  }

  /** A type string equals a target only for paragraphs, quotes, code and
      rules: heading and list targets are spelled differently from the
      `heading` and `listItem` types. */
  lemma {:induction false} SameTypeTargets(k: Kind, target: string)
    requires IsBlockType(target)
    ensures k.TypeName() == target <==> (k.Paragraph? || k.Blockquote? || k.Code? || k.HorizontalRule?) && target == k.TypeName()
    ensures k.TypeName() == target ==> target in {"paragraph", "blockquote", "code", "horizontal_rule"}
  {
  }

  /** When the first block with the id already has the target's type string, nothing changes. */
  lemma {:induction false} ConvertSameTypeUnchanged(prev: seq<Block>, id: Id, target: string, k: nat)
    requires IsBlockType(target)
    requires FindBlock(prev, id) == Some(k) && prev[k].kind.TypeName() == target
    ensures ConvertBlockType(prev, id, target) == prev
  {
  }

  /** When the first block with the id has another type string, every block
      with the id is replaced by that block converted, with its id kept. */
  lemma {:induction false} ConvertReplaces(prev: seq<Block>, id: Id, target: string, k: nat)
    requires IsBlockType(target)
    requires FindBlock(prev, id) == Some(k) && prev[k].kind.TypeName() != target
    ensures forall i :: 0 <= i < |prev| && prev[i].id == id ==>
      ConvertBlockType(prev, id, target)[i] == BlockToType(prev[k], target).value
    ensures ConvertBlockType(prev, id, target)[k].id == id
    ensures Some(ConvertBlockType(prev, id, target)[k].kind) == TargetKind(target)
  {
  }

  /** A heading never has the type string of a heading target, so
      converting it to any heading target rebuilds it with the target's
      level, even when the levels agree. */
  lemma {:induction false} HeadingReconverted(prev: seq<Block>, id: Id, k: nat, level: nat, n: nat)
    requires FindBlock(prev, id) == Some(k)
    requires prev[k].kind == Heading(level) && 1 <= n <= 6
    ensures ConvertBlockType(prev, id, HeadingTarget(n))[k] == Block(id, Heading(n), Some(GetBlockRichText(prev[k])))
  {
    HeadingTargets(prev[k], n);
  }

  /** With distinct ids exactly one block changes: the document's other
      blocks, and their order, stay as they were. */
  lemma {:induction false} ConvertChangesOne(prev: seq<Block>, id: Id, target: string, k: nat)
    requires IsBlockType(target) && Distinct(Ids(prev))
    requires k < |prev| && prev[k].id == id
    ensures FindBlock(prev, id) == Some(k)
    ensures forall i :: 0 <= i < |prev| && i != k ==> ConvertBlockType(prev, id, target)[i] == prev[i]
  {
    assert forall i :: 0 <= i < |prev| && i != k ==> Ids(prev)[i] != Ids(prev)[k];
  }
}
