/**
 * Properties of the block parser: what each branch of `parseLine` yields,
 * and what every result of `parseMarkdown` satisfies (ids pairwise
 * distinct, at most one block per line, every block well typed).
 */
module LexerProps {
  import opened Strings
  import opened Types
  import opened Inline
  import opened LinePredicates
  import opened Lexer

  // ---------------------------------------------------------------------
  // Ids

  /** `id` is a line index in `[lo, hi)` or a fresh id with a serial in `[slo, shi)`. */
  predicate IdIn(id: Id, lo: nat, hi: nat, slo: nat, shi: nat) {
    match id
    case LineId(l) => lo <= l < hi
    case FreshId(k) => slo <= k < shi
  }

  predicate IdsIn(blocks: seq<Block>, lo: nat, hi: nat, slo: nat, shi: nat) {
    forall k :: 0 <= k < |blocks| ==> IdIn(blocks[k].id, lo, hi, slo, shi)
  }

  /** Every id is a line index from `lo` on or a fresh id with a serial from `slo` on. */
  predicate IdsFrom(blocks: seq<Block>, lo: nat, slo: nat) {
    forall k :: 0 <= k < |blocks| ==>
      match blocks[k].id
      case LineId(l) => lo <= l
      case FreshId(n) => slo <= n
  }

  predicate DistinctIds(blocks: seq<Block>) {
    forall a, b :: 0 <= a < b < |blocks| ==> blocks[a].id != blocks[b].id
  }

  lemma {:induction false} DistinctIdsMeaning(blocks: seq<Block>)
    requires DistinctIds(blocks)
    ensures Distinct(Ids(blocks))
  {
    var ids := Ids(blocks);
    forall a, b | 0 <= a < b < |ids| ensures ids[a] != ids[b] {
      assert ids[a] == blocks[a].id && ids[b] == blocks[b].id;
    }
  }

  /** Two block lists with the same ids, position by position. */
  predicate SameIds(a: seq<Block>, b: seq<Block>) {
    |a| == |b| && forall k :: 0 <= k < |a| ==> a[k].id == b[k].id
  }

  lemma {:induction false} SameIdsKeep(a: seq<Block>, b: seq<Block>, lo: nat, hi: nat, slo: nat, shi: nat)
    requires SameIds(a, b) && DistinctIds(a) && IdsIn(a, lo, hi, slo, shi)
    ensures DistinctIds(b) && IdsIn(b, lo, hi, slo, shi)
  {
    assert forall k :: 0 <= k < |a| ==> a[k].id == b[k].id;
  }

  lemma {:induction false} IdsInWiden(a: seq<Block>, lo: nat, hi: nat, slo: nat, shi: nat, hi': nat, shi': nat)
    requires IdsIn(a, lo, hi, slo, shi) && hi <= hi' && shi <= shi'
    ensures IdsIn(a, lo, hi', slo, shi')
  {
    forall k | 0 <= k < |a| ensures IdIn(a[k].id, lo, hi', slo, shi') {
      assert IdIn(a[k].id, lo, hi, slo, shi);
    }
  }

  /** A block whose id lies just past the range of the others keeps the ids distinct. */
  lemma {:induction false} SnocFreshId(a: seq<Block>, b: Block, lo: nat, hi: nat, slo: nat, shi: nat, hi': nat, shi': nat)
    requires DistinctIds(a) && IdsIn(a, lo, hi, slo, shi)
    requires !IdIn(b.id, lo, hi, slo, shi) && IdIn(b.id, lo, hi', slo, shi') && hi <= hi' && shi <= shi'
    ensures DistinctIds(a + [b]) && IdsIn(a + [b], lo, hi', slo, shi')
  {
    var c := a + [b];
    forall x, y | 0 <= x < y < |c| ensures c[x].id != c[y].id {
      if y == |a| {
        assert IdIn(a[x].id, lo, hi, slo, shi);
      }
    }
    IdsInWiden(a, lo, hi, slo, shi, hi', shi');
  }

  /** The ids of a step followed by ids beyond its range stay distinct. */
  lemma {:induction false} AppendDistinct(a: seq<Block>, b: seq<Block>, lo: nat, hi: nat, slo: nat, shi: nat)
    requires lo <= hi && slo <= shi
    requires DistinctIds(a) && IdsIn(a, lo, hi, slo, shi)
    requires DistinctIds(b) && IdsFrom(b, hi, shi)
    ensures DistinctIds(a + b) && IdsFrom(a + b, lo, slo)
  {
    var c := a + b;
    forall x, y | 0 <= x < y < |c| ensures c[x].id != c[y].id {
      if x < |a| && y >= |a| {
        assert IdIn(a[x].id, lo, hi, slo, shi);
        assert c[y] == b[y - |a|];
      } else if x >= |a| {
        assert c[x] == b[x - |a|] && c[y] == b[y - |a|];
      }
    }
    forall k | 0 <= k < |c|
      ensures match c[k].id case LineId(l) => lo <= l case FreshId(n) => slo <= n
    {
      if k < |a| {
        assert IdIn(a[k].id, lo, hi, slo, shi);
      } else {
        assert c[k] == b[k - |a|];
      }
    }
  }

  // ---------------------------------------------------------------------
  // Well-typed blocks

  lemma {:induction false} AnnotatedAppend(a: seq<Span>, b: seq<Span>)
    requires Annotated(a) && Annotated(b)
    ensures Annotated(a + b)
  {
    assert forall k :: |a| <= k < |a + b| ==> (a + b)[k] == b[k - |a|];
  }

  lemma {:induction false} AllWellTypedAppend(a: seq<Block>, b: seq<Block>)
    requires AllWellTyped(a) && AllWellTyped(b)
    ensures AllWellTyped(a + b)
  {
    assert forall k :: |a| <= k < |a + b| ==> (a + b)[k] == b[k - |a|];
  }

  /** A block whose text is what the tokenizer produced is well typed. */
  lemma {:induction false} TokenizedWellTyped(id: Id, kind: Kind, s: string)
    ensures WellTyped(Block(id, kind, Some(Tokenize(s))))
  {
    TokenizeShapes(s);
  }

  // ---------------------------------------------------------------------
  // Blockquote runs

  /** Every line before the end of a quote run starts with `>`. */
  lemma {:induction false} QuoteEndRun(lines: seq<string>, j: nat, k: nat)
    requires j <= |lines| && j <= k < QuoteEnd(lines, j)
    ensures IsBlockquote(lines[k])
    decreases k - j
  {
    if j < k {
      QuoteEndRun(lines, j + 1, k);
    }
  }

  predicate QuoteKinds(c: seq<Block>) {
    forall k :: 0 <= k < |c| ==> c[k].kind.Blockquote? && c[k].kind.level >= 1
  }

  /** What holds of the children once the blockquote loop has passed line `j`. */
  predicate QuoteOk(index: nat, j: nat, next: nat, c: seq<Block>, s: nat) {
    && |c| <= j - index && next <= s
    && IdsIn(c, index, j, next, s) && DistinctIds(c)
    && AllWellTyped(c) && QuoteKinds(c)
  }

  /** A merged line keeps the children's ids and well-typedness. */
  lemma {:induction false} MergeOk(c: seq<Block>, line: string, index: nat, j: nat, next: nat, s: nat)
    requires |c| > 0 && QuoteOk(index, j, next, c, s) && j >= index
    ensures var last := |c| - 1;
      QuoteOk(index, j + 1, next, c[..last] + [Merged(c[last], line)], s)
  {
    var last := |c| - 1;
    var c' := c[..last] + [Merged(c[last], line)];
    assert WellTyped(c[last]);
    TokenizeShapes(" " + StripBlockquoteMarkers(line));
    AnnotatedAppend(c[last].richText.value, Tokenize(" " + StripBlockquoteMarkers(line)));
    assert forall k :: 0 <= k < last ==> c'[k] == c[k];
    assert SameIds(c, c');
    SameIdsKeep(c, c', index, j, next, s);
    IdsInWiden(c', index, j, next, s, j + 1, s);
  }

  /** A new child gets an id that is none of the earlier ones. */
  lemma {:induction false} ChildOk(d: Dialect, lines: seq<string>, index: nat, j: nat, next: nat, c: seq<Block>, s: nat)
    requires index <= j < |lines| && IsBlockquote(lines[j]) && QuoteOk(index, j, next, c, s)
    ensures var (id, s') := NewId(d, j, s);
      QuoteOk(index, j + 1, next, c + [Block(id, Blockquote(BlockquoteLevel(lines[j])), Some(Tokenize(StripBlockquoteMarkers(lines[j]))))], s')
  {
    var (id, s') := NewId(d, j, s);
    var b := Block(id, Blockquote(BlockquoteLevel(lines[j])), Some(Tokenize(StripBlockquoteMarkers(lines[j]))));
    SnocFreshId(c, b, index, j, next, s, j + 1, s');
    TokenizedWellTyped(id, b.kind, StripBlockquoteMarkers(lines[j]));
    AllWellTypedAppend(c, [b]);
  }

  lemma {:induction false} QuoteAddOk(d: Dialect, lines: seq<string>, index: nat, j: nat, next: nat, c: seq<Block>, s: nat)
    requires index <= j < |lines| && IsBlockquote(lines[j]) && MergeReady(lines, index, j, c)
    requires QuoteOk(index, j, next, c, s)
    ensures var (c', s') := QuoteAdd(d, lines, index, j, c, s); QuoteOk(index, j + 1, next, c', s')
  {
    if Continues(lines, index, j) {
      MergeOk(c, lines[j], index, j, next, s);
    } else if IsOnlyBlockquoteMarker(lines[j]) {
      IdsInWiden(c, index, j, next, s, j + 1, s);
    } else {
      ChildOk(d, lines, index, j, next, c, s);
    }
  }

  /** The children of a quote run so far: at most one per line, distinct
      ids drawn from the lines and serials passed, well typed, and each a
      blockquote of level at least 1. */
  lemma {:induction false} QuoteChildrenOk(d: Dialect, lines: seq<string>, index: nat, j: nat, next: nat)
    requires index <= |lines| && index <= j <= QuoteEnd(lines, index)
    ensures QuoteOk(index, j, next, QuoteChildren(d, lines, index, j, next).0, QuoteChildren(d, lines, index, j, next).1)
    decreases j
  {
    if j > index {
      var r := QuoteChildren(d, lines, index, j - 1, next);
      QuoteChildrenOk(d, lines, index, j - 1, next);
      QuoteEndRun(lines, index, j - 1);
      QuoteAddOk(d, lines, index, j - 1, next, r.0, r.1);
    }
  }

  // ---------------------------------------------------------------------
  // List runs

  /** Every line before the end of a list run passes `isListItem`. */
  lemma {:induction false} ListEndRun(lines: seq<string>, j: nat, k: nat)
    requires j <= |lines| && j <= k < ListEnd(lines, j)
    ensures IsListItem(lines[k])
    decreases k - j
  {
    if j < k {
      ListEndRun(lines, j + 1, k);
    }
  }

  lemma {:induction false} ListRunAll(lines: seq<string>, j: nat)
    requires j <= |lines|
    ensures forall k :: j <= k < ListEnd(lines, j) ==> IsListItem(lines[k])
  {
    forall k | j <= k < ListEnd(lines, j) ensures IsListItem(lines[k]) {
      ListEndRun(lines, j, k);
    }
  }

  /** What holds of the items once the list loop has passed line `j`:
      exactly one item per line. */
  predicate ListOk(index: nat, j: nat, next: nat, c: seq<Block>, s: nat) {
    && |c| == j - index && next <= s
    && IdsIn(c, index, j, next, s) && DistinctIds(c) && AllWellTyped(c)
  }

  /** The list loop on a line the pattern matches appends that line's item. */
  lemma {:induction false} ListItemsSnoc(d: Dialect, lines: seq<string>, index: nat, i: nat, next: nat)
    requires index <= i < |lines| && ListMatch(lines[i]).Some?
    ensures var (c, s) := ListItems(d, lines, index, i, next);
      var (id, s') := NewId(d, i, s);
      ListItems(d, lines, index, i + 1, next) == (c + [ListItemBlock(d, ListMatch(lines[i]).value, id)], s')
  {
  }

  /** The items of a list run so far: one per line, distinct ids drawn from
      the lines and serials passed, all well typed. */
  lemma {:induction false} ListItemsOk(d: Dialect, lines: seq<string>, index: nat, j: nat, next: nat)
    requires index <= |lines| && index <= j <= ListEnd(lines, index)
    ensures var (c, s) := ListItems(d, lines, index, j, next); ListOk(index, j, next, c, s)
    decreases j
  {
    if j > index {
      var i := j - 1;
      var (c, s) := ListItems(d, lines, index, i, next);
      ListItemsOk(d, lines, index, i, next);
      ListEndRun(lines, index, i);
      ListItemMatches(lines[i]);
      ListItemsSnoc(d, lines, index, i, next);
      var cap := ListMatch(lines[i]).value;
      var (id, s') := NewId(d, i, s);
      var b := ListItemBlock(d, cap, id);
      SnocFreshId(c, b, index, i, next, s, j, s');
      TokenizedWellTyped(id, b.kind, cap.text);
      AllWellTypedAppend(c, [b]);
    }
  }

  /** One item per line of a list run. */
  lemma {:induction false} ListItemsCount(d: Dialect, lines: seq<string>, index: nat, j: nat, next: nat)
    requires index <= |lines| && index <= j <= ListEnd(lines, index)
    ensures |ListItems(d, lines, index, j, next).0| == j - index
    decreases j
  {
    if j > index {
      var i := j - 1;
      ListItemsCount(d, lines, index, i, next);
      ListEndRun(lines, index, i);
      ListItemMatches(lines[i]);
      ListItemsSnoc(d, lines, index, i, next);
    }
  }

  /** Every block of a list run is a list item. */
  lemma {:induction false} ListItemsKinds(d: Dialect, lines: seq<string>, index: nat, j: nat, next: nat)
    requires index <= |lines| && index <= j <= ListEnd(lines, index)
    ensures forall k :: 0 <= k < |ListItems(d, lines, index, j, next).0| ==> ListItems(d, lines, index, j, next).0[k].kind.ListItem?
    decreases j
  {
    if j > index {
      var i := j - 1;
      ListItemsKinds(d, lines, index, i, next);
      ListEndRun(lines, index, i);
      ListItemMatches(lines[i]);
      ListItemsSnoc(d, lines, index, i, next);
    }
  }

  /** The list loop only ever appends: the items after line `i` start the
      items after any later line. */
  lemma {:induction false} ListItemsPrefix(d: Dialect, lines: seq<string>, index: nat, i: nat, j: nat, next: nat)
    requires index <= |lines| && index <= i <= j <= ListEnd(lines, index)
    ensures ListItems(d, lines, index, i, next).0 <= ListItems(d, lines, index, j, next).0
    decreases j
  {
    if i < j {
      var h := j - 1;
      ListItemsPrefix(d, lines, index, i, h, next);
      ListEndRun(lines, index, h);
      ListItemMatches(lines[h]);
      ListItemsSnoc(d, lines, index, h, next);
    }
  }

  /** The item the list loop adds for line `index + k` of a run is the item
      that line's match yields. */
  lemma {:induction false} ListItemsLast(d: Dialect, lines: seq<string>, index: nat, k: nat, next: nat)
    requires index <= |lines| && index + k < ListEnd(lines, index)
    ensures ListMatch(lines[index + k]).Some?
    ensures var (c, _) := ListItems(d, lines, index, index + k + 1, next);
      |c| == k + 1 && c[k] == ListItemBlock(d, ListMatch(lines[index + k]).value, c[k].id)
  {
    var i := index + k;
    ListEndRun(lines, index, i);
    ListItemMatches(lines[i]);
    ListItemsSnoc(d, lines, index, i, next);
    ListItemsCount(d, lines, index, i, next);
  }

  // ---------------------------------------------------------------------
  // One call of `parseLine`

  /** What every step of `parseLine` satisfies: no more blocks than lines
      consumed or left, ids drawn from the lines consumed and the serials
      handed out, pairwise distinct, and every block well typed. */
  predicate StepOk(lines: seq<string>, index: nat, next: nat, s: Step) {
    && |s.blocks| <= s.consumed && index + |s.blocks| <= |lines| && next <= s.next
    && IdsIn(s.blocks, index, index + s.consumed, next, s.next)
    && DistinctIds(s.blocks) && AllWellTyped(s.blocks)
  }

  /** A step of one well-typed block whose id is that of line `index`. */
  lemma {:induction false} SingleOk(lines: seq<string>, index: nat, next: nat, s: Step)
    requires index < |lines| && s.consumed >= 1 && next <= s.next
    requires |s.blocks| == 1 && WellTyped(s.blocks[0]) && IdIn(s.blocks[0].id, index, index + 1, next, s.next)
    ensures StepOk(lines, index, next, s)
  {
    assert IdIn(s.blocks[0].id, index, index + s.consumed, next, s.next);
  }

  lemma {:induction false} HeadingStepOk(d: Dialect, lines: seq<string>, index: nat, next: nat)
    requires index < |lines|
    ensures StepOk(lines, index, next, HeadingStep(d, lines[index], index, next))
  {
    var s := HeadingStep(d, lines[index], index, next);
    TokenizedWellTyped(s.blocks[0].id, s.blocks[0].kind, HeadingText(lines[index]));
    SingleOk(lines, index, next, s);
  }

  lemma {:induction false} QuoteStepOk(d: Dialect, lines: seq<string>, index: nat, next: nat)
    requires index < |lines| && IsBlockquote(lines[index])
    ensures StepOk(lines, index, next, QuoteStep(d, lines, index, next))
  {
    QuoteChildrenOk(d, lines, index, QuoteEnd(lines, index), next);
  }

  lemma {:induction false} FenceStepOk(d: Dialect, lines: seq<string>, index: nat, next: nat)
    requires index < |lines| && IsFencedCodeBlock(lines[index])
    ensures StepOk(lines, index, next, FenceStep(d, lines, index, next))
  {
    SingleOk(lines, index, next, FenceStep(d, lines, index, next));
  }

  lemma {:induction false} IndentStepOk(d: Dialect, lines: seq<string>, index: nat, next: nat)
    requires index < |lines| && IsIndentedLine(lines[index])
    ensures StepOk(lines, index, next, IndentStep(d, lines, index, next))
  {
    SingleOk(lines, index, next, IndentStep(d, lines, index, next));
  }

  lemma {:induction false} ListStepOk(d: Dialect, lines: seq<string>, index: nat, next: nat)
    requires index < |lines| && IsListItem(lines[index])
    ensures StepOk(lines, index, next, ListStep(d, lines, index, next))
  {
    ListItemsOk(d, lines, index, ListEnd(lines, index), next);
  }

  /** Every step `parseLine` returns satisfies `StepOk`. */
  lemma {:induction false} LineStepOk(d: Dialect, lines: seq<string>, index: nat, next: nat)
    requires index < |lines|
    ensures LineStep(d, lines, index, next).Some? ==> StepOk(lines, index, next, LineStep(d, lines, index, next).value)
  {
    var line := lines[index];
    LineStepChain(d, lines, index, next);
    if IsHeading(line) {
      HeadingStepOk(d, lines, index, next);
    } else if IsHorizontalRule(line) {
      SingleOk(lines, index, next, Step([Block(LineId(index), HorizontalRule, None)], 1, next));
    } else if IsBlockquote(line) {
      QuoteStepOk(d, lines, index, next);
    } else if IsFencedCodeBlock(line) {
      FenceStepOk(d, lines, index, next);
    } else if IsIndentedLine(line) {
      IndentStepOk(d, lines, index, next);
    } else if IsListItem(line) {
      ListStepOk(d, lines, index, next);
    } else if !AllSpace(line) {
      TokenizedWellTyped(LineId(index), Paragraph, line);
      SingleOk(lines, index, next, Step([Block(LineId(index), Paragraph, Some(Tokenize(line)))], 1, next));
    }
  }

  // ---------------------------------------------------------------------
  // The whole document

  lemma {:induction false} IdsFromWiden(b: seq<Block>, lo: nat, slo: nat, lo': nat, slo': nat)
    requires IdsFrom(b, lo, slo) && lo' <= lo && slo' <= slo
    ensures IdsFrom(b, lo', slo')
  {
  }

  /** The loop of `parseMarkdown` from line `i` on: no more blocks than lines
      left, ids from line `i` and serial `next` on, pairwise distinct, every
      block well typed. */
  lemma {:induction false} ParseFromOk(d: Dialect, lines: seq<string>, i: nat, next: nat)
    ensures var p := ParseFrom(d, lines, i, next);
      && (i <= |lines| ==> i + |p| <= |lines|)
      && IdsFrom(p, i, next) && DistinctIds(p) && AllWellTyped(p)
    decreases |lines| - i
  {
    if i < |lines| {
      var r := LineStep(d, lines, i, next);
      if r.None? {
        ParseFromSkip(d, lines, i, next, i + 1);
        ParseFromOk(d, lines, i + 1, next);
        IdsFromWiden(ParseFrom(d, lines, i + 1, next), i + 1, next, i, next);
      } else {
        var s := r.value;
        var at := i + s.consumed;
        ParseFromStep(d, lines, i, next, s, at);
        LineStepOk(d, lines, i, next);
        ParseFromOk(d, lines, at, s.next);
        var rest := ParseFrom(d, lines, at, s.next);
        AppendDistinct(s.blocks, rest, i, at, next, s.next);
        AllWellTypedAppend(s.blocks, rest);
      }
    }
  }

  /** `parseMarkdown` gives every block an id no other block has, at most
      one block per line, and well-typed blocks, in both copies. */
  lemma {:induction false} ParseOk(d: Dialect, markdown: string, next: nat)
    ensures Distinct(Ids(Parse(d, markdown, next)))
    ensures AllWellTyped(Parse(d, markdown, next))
    ensures |Parse(d, markdown, next)| <= |Split(markdown, '\n')|
  {
    ParseFromOk(d, Split(markdown, '\n'), 0, next);
    DistinctIdsMeaning(Parse(d, markdown, next));
  }

  // ---------------------------------------------------------------------
  // What each test of `parseLine` yields

  /** `parseLine` returns null exactly for a blank line the indented-code
      test does not take. */
  lemma {:induction false} LineStepNone(d: Dialect, lines: seq<string>, index: nat, next: nat)
    requires index < |lines|
    ensures LineStep(d, lines, index, next).None? <==> AllSpace(lines[index]) && !IsIndentedLine(lines[index])
  {
    LineStepChain(d, lines, index, next);
    if AllSpace(lines[index]) {
      BlankIsNoOtherKind(lines[index]);
    }
  }

  /** A heading line, tested first, yields one heading for that line, with
      the level `getHeadingLevel` and the text `getHeadingText` read. */
  lemma {:induction false} HeadingBlock(d: Dialect, lines: seq<string>, index: nat, next: nat)
    requires index < |lines| && IsHeading(lines[index])
    ensures var line := lines[index]; var (id, next') := NewId(d, index, next);
      LineStep(d, lines, index, next) == Some(Step([Block(id, Heading(HeadingLevel(line)), Some(Tokenize(HeadingText(line))))], 1, next'))
  {
    LineStepChain(d, lines, index, next);
  }

  /** A rule line yields one rule, with the line index as its id in both
      copies, and no rich text. */
  lemma {:induction false} RuleBlock(d: Dialect, lines: seq<string>, index: nat, next: nat)
    requires index < |lines| && IsHorizontalRule(lines[index])
    ensures LineStep(d, lines, index, next) == Some(Step([Block(LineId(index), HorizontalRule, None)], 1, next))
  {
    LineStepChain(d, lines, index, next);
    RuleIsNoOtherKind(lines[index]);
  }

  /** A quote line is taken by the blockquote test. */
  lemma {:induction false} QuoteTaken(d: Dialect, lines: seq<string>, index: nat, next: nat)
    requires index < |lines| && IsBlockquote(lines[index])
    ensures LineStep(d, lines, index, next) == Some(QuoteStep(d, lines, index, next))
  {
    LineStepChain(d, lines, index, next);
    QuoteIsNoOtherKind(lines[index]);
  }

  /** The blockquote branch consumes the maximal run of lines starting with
      `>` and yields at most one blockquote per line, each of level at least 1. */
  lemma {:induction false} QuoteBlocks(d: Dialect, lines: seq<string>, index: nat, next: nat)
    requires index < |lines| && IsBlockquote(lines[index])
    ensures var s := QuoteStep(d, lines, index, next); var e := QuoteEnd(lines, index);
      && index + s.consumed == e && |s.blocks| <= s.consumed
      && (forall k :: index <= k < e ==> IsBlockquote(lines[k]))
      && (e < |lines| ==> !IsBlockquote(lines[e]))
      && (forall k :: 0 <= k < |s.blocks| ==> s.blocks[k].kind.Blockquote? && s.blocks[k].kind.level >= 1)
  {
    var e := QuoteEnd(lines, index);
    QuoteChildrenOk(d, lines, index, e, next);
    forall k | index <= k < e ensures IsBlockquote(lines[k]) {
      QuoteEndRun(lines, index, k);
    }
  }

  /** A fence line is taken by the fenced-code test. */
  lemma {:induction false} FenceTaken(d: Dialect, lines: seq<string>, index: nat, next: nat)
    requires index < |lines| && IsFencedCodeBlock(lines[index])
    ensures LineStep(d, lines, index, next) == Some(FenceStep(d, lines, index, next))
  {
    LineStepChain(d, lines, index, next);
    FenceIsNoOtherKind(lines[index]);
  }

  /** The fenced-code branch yields one code block whose language is the
      trimmed rest of the fence line, or none, and whose text is the lines
      strictly between the fence and the next line starting with the same
      three characters, or all remaining lines. The current copy consumes
      the closing line when there is one; the legacy copy always counts one
      line past the last content line, past the end when the fence is not
      closed. */
  lemma {:induction false} FenceBlock(d: Dialect, lines: seq<string>, index: nat, next: nat)
    requires index < |lines| && IsFencedCodeBlock(lines[index])
    ensures var line := lines[index]; var e := FenceEnd(lines, index + 1, line[..3]);
      var s := FenceStep(d, lines, index, next); var language := Trim(line[3..]);
      && |s.blocks| == 1 && s.blocks[0].id == NewId(d, index, next).0
      && s.blocks[0].kind == Code(if language == [] then None else Some(language))
      && s.blocks[0].richText == Some([CodeSpan(Join(lines[index + 1..e], "\n"))])
      && (forall k :: index < k < e ==> !StartsWith(lines[k], line[..3]))
      && (e < |lines| ==> StartsWith(lines[e], line[..3]))
      && (d == Current ==> index + s.consumed == if e < |lines| then e + 1 else |lines|)
      && (d == Legacy ==> index + s.consumed == e + 1)
  {
  }

  /** An indented line starts with a space or a tab, so it is no quote or fence. */
  lemma {:induction false} IndentIsNoQuoteOrFence(line: string)
    requires IsIndentedLine(line)
    ensures !IsBlockquote(line) && !IsFencedCodeBlock(line)
  {
    if StartsWith(line, "    ") {
      assert line[0] == line[..4][0];
    } else {
      assert line[0] == line[..1][0];
    }
    if |line| >= 3 {
      assert line[0] == line[..3][0];
    }
  }

  /** An indented line that is no heading or rule is taken by the indented-code test. */
  lemma {:induction false} IndentTaken(d: Dialect, lines: seq<string>, index: nat, next: nat)
    requires index < |lines| && IsIndentedLine(lines[index])
    requires !IsHeading(lines[index]) && !IsHorizontalRule(lines[index])
    ensures LineStep(d, lines, index, next) == Some(IndentStep(d, lines, index, next))
  {
    LineStepChain(d, lines, index, next);
    IndentIsNoQuoteOrFence(lines[index]);
  }

  /** The indented-code branch consumes the maximal run of indented lines
      and yields one code block without a language holding those lines as
      they are. */
  lemma {:induction false} IndentBlock(d: Dialect, lines: seq<string>, index: nat, next: nat)
    requires index < |lines| && IsIndentedLine(lines[index])
    ensures var s := IndentStep(d, lines, index, next); var e := IndentEnd(lines, index);
      && index + s.consumed == e
      && s.blocks == [Block(NewId(d, index, next).0, Code(None), Some([CodeSpan(Join(lines[index..e], "\n"))]))]
      && (forall k :: index <= k < e ==> IsIndentedLine(lines[k]))
      && (e < |lines| ==> !IsIndentedLine(lines[e]))
  {
  }

  /** A list line that no earlier test takes is taken by the list test. */
  lemma {:induction false} ListTaken(d: Dialect, lines: seq<string>, index: nat, next: nat)
    requires index < |lines| && IsListItem(lines[index])
    requires !IsHeading(lines[index]) && !IsHorizontalRule(lines[index]) && !IsIndentedLine(lines[index])
    ensures LineStep(d, lines, index, next) == Some(ListStep(d, lines, index, next))
  {
    LineStepChain(d, lines, index, next);
    assert !IsBlockquote(lines[index]) && !IsFencedCodeBlock(lines[index]) by {
      ListLineIsNoQuoteOrFence(lines[index]);
    }
  }

  /** The list branch consumes the maximal run of list lines and yields
      one list item per line. */
  lemma {:induction false} ListBlocks(d: Dialect, lines: seq<string>, index: nat, next: nat)
    requires index < |lines| && IsListItem(lines[index])
    ensures var s := ListStep(d, lines, index, next); var e := ListEnd(lines, index);
      && index + s.consumed == e && |s.blocks| == s.consumed
      && (forall k :: index <= k < e ==> IsListItem(lines[k]))
      && (e < |lines| ==> !IsListItem(lines[e]))
      && (forall k :: 0 <= k < |s.blocks| ==> s.blocks[k].kind.ListItem?)
  {
    var e := ListEnd(lines, index);
    ListRunAll(lines, index);
    ListItemsCount(d, lines, index, e, next);
    ListItemsKinds(d, lines, index, e, next);
  }

  /** A line that is not blank and passes none of the tests is one
      paragraph of its own, with the line index as its id. */
  lemma {:induction false} ParagraphBlock(d: Dialect, lines: seq<string>, index: nat, next: nat)
    requires index < |lines| && !AllSpace(lines[index])
    requires !IsHeading(lines[index]) && !IsHorizontalRule(lines[index]) && !IsBlockquote(lines[index])
    requires !IsFencedCodeBlock(lines[index]) && !IsIndentedLine(lines[index]) && !IsListItem(lines[index])
    ensures LineStep(d, lines, index, next) == Some(Step([Block(LineId(index), Paragraph, Some(Tokenize(lines[index])))], 1, next))
  {
    LineStepChain(d, lines, index, next);
  }

  /** `parseMarkdown("")` is empty. */
  lemma {:induction false} ParseEmpty(d: Dialect, next: nat)
    ensures Parse(d, "", next) == []
  {
    assert Split("", '\n') == [""];
    LineStepNone(d, [""], 0, next);
    ParseFromSkip(d, [""], 0, next, 1);
  }

  // ---------------------------------------------------------------------
  // Which blocks get which ids

  /** The id policy of each copy: the legacy copy gives every block a line
      index; the current copy gives rules and paragraphs their line index
      and every other block a fresh id. */
  predicate IdPolicy(d: Dialect, b: Block) {
    match d
    case Legacy => b.id.LineId?
    case Current => b.id.LineId? <==> b.kind.Paragraph? || b.kind.HorizontalRule?
  }

  predicate AllIdPolicy(d: Dialect, blocks: seq<Block>) {
    forall k :: 0 <= k < |blocks| ==> IdPolicy(d, blocks[k])
  }

  lemma {:induction false} AllIdPolicyAppend(d: Dialect, a: seq<Block>, b: seq<Block>)
    requires AllIdPolicy(d, a) && AllIdPolicy(d, b)
    ensures AllIdPolicy(d, a + b)
  {
    assert forall k :: |a| <= k < |a + b| ==> (a + b)[k] == b[k - |a|];
  }

  lemma {:induction false} QuoteAddPolicy(d: Dialect, lines: seq<string>, index: nat, j: nat, c: seq<Block>, s: nat)
    requires index <= j < |lines| && MergeReady(lines, index, j, c) && AllIdPolicy(d, c)
    ensures AllIdPolicy(d, QuoteAdd(d, lines, index, j, c, s).0)
  {
    if Continues(lines, index, j) {
      var last := |c| - 1;
      var c' := c[..last] + [Merged(c[last], lines[j])];
      assert forall k :: 0 <= k < last ==> c'[k] == c[k];
      assert IdPolicy(d, c[last]);
    } else if !IsOnlyBlockquoteMarker(lines[j]) {
      var (id, _) := NewId(d, j, s);
      AllIdPolicyAppend(d, c, [Block(id, Blockquote(BlockquoteLevel(lines[j])), Some(Tokenize(StripBlockquoteMarkers(lines[j]))))]);
    }
  }

  lemma {:induction false} QuoteChildrenPolicy(d: Dialect, lines: seq<string>, index: nat, j: nat, next: nat)
    requires index <= j <= |lines|
    ensures AllIdPolicy(d, QuoteChildren(d, lines, index, j, next).0)
    decreases j
  {
    if j > index {
      var (c, s) := QuoteChildren(d, lines, index, j - 1, next);
      QuoteChildrenPolicy(d, lines, index, j - 1, next);
      QuoteAddPolicy(d, lines, index, j - 1, c, s);
    }
  }

  lemma {:induction false} ListItemsPolicy(d: Dialect, lines: seq<string>, index: nat, j: nat, next: nat)
    requires index <= |lines| && index <= j <= ListEnd(lines, index)
    ensures AllIdPolicy(d, ListItems(d, lines, index, j, next).0)
    decreases j
  {
    if j > index {
      var i := j - 1;
      var (c, s) := ListItems(d, lines, index, i, next);
      ListItemsPolicy(d, lines, index, i, next);
      ListEndRun(lines, index, i);
      ListItemMatches(lines[i]);
      ListItemsSnoc(d, lines, index, i, next);
      var (id, _) := NewId(d, i, s);
      AllIdPolicyAppend(d, c, [ListItemBlock(d, ListMatch(lines[i]).value, id)]);
    }
  }

  lemma {:induction false} QuoteStepPolicy(d: Dialect, lines: seq<string>, index: nat, next: nat)
    requires index < |lines| && IsBlockquote(lines[index])
    ensures AllIdPolicy(d, QuoteStep(d, lines, index, next).blocks)
  {
    QuoteChildrenPolicy(d, lines, index, QuoteEnd(lines, index), next);
  }

  lemma {:induction false} ListStepPolicy(d: Dialect, lines: seq<string>, index: nat, next: nat)
    requires index < |lines| && IsListItem(lines[index])
    ensures AllIdPolicy(d, ListStep(d, lines, index, next).blocks)
  {
    ListItemsPolicy(d, lines, index, ListEnd(lines, index), next);
  }

  /** A block started at line `index` that is no rule or paragraph gets the id policy's id. */
  lemma {:induction false} NewIdPolicy(d: Dialect, b: Block, index: nat, next: nat)
    requires b.id == NewId(d, index, next).0 && !b.kind.Paragraph? && !b.kind.HorizontalRule?
    ensures AllIdPolicy(d, [b])
  {
  }

  /** Rules and paragraphs get the line index in both copies. */
  lemma {:induction false} LineIdPolicy(d: Dialect, b: Block)
    requires b.id.LineId? && (b.kind.Paragraph? || b.kind.HorizontalRule?)
    ensures AllIdPolicy(d, [b])
  {
  }

  lemma {:induction false} LineStepPolicy(d: Dialect, lines: seq<string>, index: nat, next: nat)
    requires index < |lines|
    ensures LineStep(d, lines, index, next).Some? ==> AllIdPolicy(d, LineStep(d, lines, index, next).value.blocks)
  {
    var line := lines[index];
    LineStepChain(d, lines, index, next);
    if IsHeading(line) {
      NewIdPolicy(d, HeadingStep(d, line, index, next).blocks[0], index, next);
    } else if IsHorizontalRule(line) {
      LineIdPolicy(d, Block(LineId(index), HorizontalRule, None));
    } else if IsBlockquote(line) {
      QuoteStepPolicy(d, lines, index, next);
    } else if IsFencedCodeBlock(line) {
      NewIdPolicy(d, FenceStep(d, lines, index, next).blocks[0], index, next);
    } else if IsIndentedLine(line) {
      NewIdPolicy(d, IndentStep(d, lines, index, next).blocks[0], index, next);
    } else if IsListItem(line) {
      ListStepPolicy(d, lines, index, next);
    } else if !AllSpace(line) {
      LineIdPolicy(d, Block(LineId(index), Paragraph, Some(Tokenize(line))));
    }
  }

  lemma {:induction false} ParseFromPolicy(d: Dialect, lines: seq<string>, i: nat, next: nat)
    ensures AllIdPolicy(d, ParseFrom(d, lines, i, next))
    decreases |lines| - i
  {
    if i < |lines| {
      var r := LineStep(d, lines, i, next);
      if r.None? {
        ParseFromSkip(d, lines, i, next, i + 1);
        ParseFromPolicy(d, lines, i + 1, next);
      } else {
        var s := r.value;
        var at := i + s.consumed;
        ParseFromStep(d, lines, i, next, s, at);
        LineStepPolicy(d, lines, i, next);
        ParseFromPolicy(d, lines, at, s.next);
        AllIdPolicyAppend(d, s.blocks, ParseFrom(d, lines, at, s.next));
      }
    }
  }

  /** Every block of `parseMarkdown` follows the id policy of its copy. */
  lemma {:induction false} ParsePolicy(d: Dialect, markdown: string, next: nat)
    ensures forall k :: 0 <= k < |Parse(d, markdown, next)| ==> IdPolicy(d, Parse(d, markdown, next)[k])
  {
    ParseFromPolicy(d, Split(markdown, '\n'), 0, next);
  }

  // ---------------------------------------------------------------------
  // List items

  /** `Count` of a character in its own repetition. */
  lemma {:induction false} CountRepeat(n: nat)
    ensures |Repeat("\t", n)| == n && Count(Repeat("\t", n), '\t') == n
  {
    if n > 0 {
      CountRepeat(n - 1);
      assert Repeat("\t", n)[1..] == Repeat("\t", n - 1);
    }
  }

  /** The two copies agree on an indent without tabs; on tabs alone the
      current copy counts four columns per tab and the legacy copy one. */
  lemma {:induction false} ListLevelTabs(indent: string, n: nat)
    ensures '\t' !in indent ==> ListLevel(Current, indent) == ListLevel(Legacy, indent) == |indent| / 2
    ensures ListLevel(Current, Repeat("\t", n)) == 2 * n
    ensures ListLevel(Legacy, Repeat("\t", n)) == n / 2
  {
    CountRepeat(n);
  }

  lemma {:induction false} LeadingDigitsOf(s: string, rest: string)
    requires forall i :: 0 <= i < |s| ==> IsDigit(s[i])
    requires rest == [] || !IsDigit(rest[0])
    ensures LeadingDigits(s + rest) == |s|
    decreases |s|
  {
    if s != [] {
      LeadingDigitsOf(s[1..], rest);
      assert (s + rest)[1..] == s[1..] + rest;
    }
  }

  /** A marker `n.` makes an ordered item numbered `n`, whatever checkbox follows. */
  lemma {:induction false} OrderedNumbering(n: nat, indent: string, checkbox: Option<string>, text: string)
    ensures ListFormat(ListCapture(indent, NatToString(n) + ".", checkbox, text)) == Ordered(n)
  {
    var digits := NatToString(n);
    var marker := digits + ".";
    LeadingDigitsOf(digits, ".");
    assert marker[..|digits|] == digits;
    assert marker[|digits|] == '.';
    DigitsOfNat(n);
  }

  /** An item without an ordered marker but with a checkbox is a task item,
      checked exactly when the box holds `x` or `X`. */
  lemma {:induction false} TaskChecked(line: string)
    requires ListMatch(line).Some? && ListMatch(line).value.checkbox.Some?
    requires !IsOrderedMarker(ListMatch(line).value.marker)
    ensures ListFormat(ListMatch(line).value) == Task(ListMatch(line).value.checkbox.value != "")
  {
    ListMatchCaptures(line);
  }
}
