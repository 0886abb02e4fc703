/**
 * The block parser: `parseLine` classifies the line at an index and
 * consumes it together with the lines that belong to the same block,
 * `parseMarkdown` drives it over the lines of the document.
 *
 * The two copies of the parser differ in three places, selected by a
 * `Dialect`: the ids they give (fresh ids versus line indices), the lines
 * an unterminated fence consumes, and how a tab counts in a list indent.
 */
module Lexer {
  import opened Strings
  import opened Types
  import opened Inline
  import opened LinePredicates

  /** `Current` is `lib/lib/helpers.tsx`, `Legacy` is `src/lib/helpers.tsx`. */
  datatype Dialect = Current | Legacy

  /** A non-null result of `parseLine`: the blocks it yields, how many lines
      it consumed, and the fresh-id counter after it. */
  datatype Step = Step(blocks: seq<Block>, consumed: nat, next: nat)

  /** The id of a block started at line `line`: `crypto.randomUUID()` in the
      current copy, the line index in the legacy copy. `next` counts the
      fresh ids handed out so far. */
  function NewId(d: Dialect, line: nat, next: nat): (r: (Id, nat))
    ensures d == Current ==> r.0 == FreshId(next) && r.1 == next + 1
    ensures d == Legacy ==> r.0 == LineId(line) && r.1 == next
  {
    match d
    case Current => (FreshId(next), next + 1)
    case Legacy => (LineId(line), next)
  }

  // ---------------------------------------------------------------------
  // Blockquote runs

  /** The end of the run of quote lines starting at `j`. */
  function QuoteEnd(lines: seq<string>, j: nat): (e: nat)
    requires j <= |lines|
    ensures j <= e <= |lines|
    ensures e < |lines| ==> !IsBlockquote(lines[e])
    ensures j < |lines| && IsBlockquote(lines[j]) ==> e > j
    decreases |lines| - j
  {
    if j == |lines| || !IsBlockquote(lines[j]) then j else QuoteEnd(lines, j + 1)
  }

  /** What makes the merge into the last child safe: when the line before
      line `j` of the run had text, a child exists. */
  predicate MergeReady(lines: seq<string>, index: nat, j: nat, children: seq<Block>)
    requires index <= j <= |lines|
  {
    j > index && HasGreaterThanAndText(lines[j - 1]) ==> |children| > 0
  }

  /** Whether line `j` of a quote run continues the child of the line before. */
  predicate Continues(lines: seq<string>, index: nat, j: nat)
    requires index <= j < |lines|
  {
    j > index && HasGreaterThanAndText(lines[j - 1]) && BlockquoteLevel(lines[j - 1]) == BlockquoteLevel(lines[j])
  }

  /** The current quote child with the text of line `j` appended after a space. */
  function Merged(child: Block, line: string): Block {
    child.(richText := Some(child.richText.GetOr([]) + Tokenize(" " + StripBlockquoteMarkers(line))))
  }

  /** One pass of the blockquote loop, on line `j` of the run: a line
      continuing the previous one at the same level joins its child, a line
      of markers only is skipped, any other line starts a child. */
  function QuoteAdd(d: Dialect, lines: seq<string>, index: nat, j: nat, children: seq<Block>, next: nat): (r: (seq<Block>, nat))
    requires index <= j < |lines| && MergeReady(lines, index, j, children)
    ensures r.1 >= next
    ensures MergeReady(lines, index, j + 1, r.0)
  {
    if Continues(lines, index, j) then
      var last := |children| - 1;
      (children[..last] + [Merged(children[last], lines[j])], next)
    else if IsOnlyBlockquoteMarker(lines[j]) then
      OnlyMarkerHasNoText(lines[j]);
      (children, next)
    else
      var (id, next') := NewId(d, j, next);
      (children + [Block(id, Blockquote(BlockquoteLevel(lines[j])), Some(Tokenize(StripBlockquoteMarkers(lines[j]))))], next')
  }

  /** The children and the id counter once the blockquote loop has passed
      over the lines from `index` up to `j`. */
  function QuoteChildren(d: Dialect, lines: seq<string>, index: nat, j: nat, next: nat): (r: (seq<Block>, nat))
    requires index <= j <= |lines|
    ensures r.1 >= next
    ensures MergeReady(lines, index, j, r.0)
    decreases j
  {
    if j == index then ([], next)
    else
      var (children, serial) := QuoteChildren(d, lines, index, j - 1, next);
      QuoteAdd(d, lines, index, j - 1, children, serial)
  }

  // ---------------------------------------------------------------------
  // List runs

  /** The list level: half the indent, where the current copy counts a tab as four spaces. */
  function ListLevel(d: Dialect, indent: string): nat {
    match d
    case Current => (|indent| + 3 * Count(indent, '\t')) / 2
    case Legacy => |indent| / 2
  }

  /** `/^\d+\.$/`: the marker of an ordered item. */
  predicate IsOrderedMarker(marker: string) {
    var n := LeadingDigits(marker);
    n >= 1 && n + 1 == |marker| && marker[n] == '.'
  }

  /** The format of a matched item: ordered by its marker first, then task
      by its checkbox, else unordered. The numbering is `parseInt(marker, 10)`,
      the value of the marker's leading digits. */
  function ListFormat(cap: ListCapture): Format {
    if IsOrderedMarker(cap.marker) then Ordered(DigitsValue(cap.marker[..LeadingDigits(cap.marker)]))
    else if cap.checkbox.Some? then Task(cap.checkbox.value == "x" || cap.checkbox.value == "X")
    else Unordered
  }

  /** The item a matched list line yields. */
  function ListItemBlock(d: Dialect, cap: ListCapture, id: Id): Block {
    Block(id, ListItem(ListLevel(d, cap.indent), ListFormat(cap)), Some(Tokenize(cap.text)))
  }

  /** The end of the run of list lines starting at `j`. */
  function ListEnd(lines: seq<string>, j: nat): (e: nat)
    requires j <= |lines|
    ensures j <= e <= |lines|
    ensures e < |lines| ==> !IsListItem(lines[e])
    ensures j < |lines| && IsListItem(lines[j]) ==> e > j
    decreases |lines| - j
  {
    if j == |lines| || !IsListItem(lines[j]) then j else ListEnd(lines, j + 1)
  }

  /** The items and the id counter once the list loop has passed over the
      lines from `index` up to `j`: one item per line the capturing pattern
      matches. */
  function ListItems(d: Dialect, lines: seq<string>, index: nat, j: nat, next: nat): (r: (seq<Block>, nat))
    requires index <= j <= |lines|
    ensures r.1 >= next
    decreases j
  {
    if j == index then ([], next)
    else
      var (children, serial) := ListItems(d, lines, index, j - 1, next);
      match ListMatch(lines[j - 1])
      case None => (children, serial)
      case Some(cap) =>
        var (id, next') := NewId(d, j - 1, serial);
        (children + [ListItemBlock(d, cap, id)], next')
  }

  // ---------------------------------------------------------------------
  // Code blocks

  /** The first line at or after `j` that starts with the fence, or `|lines|`. */
  function FenceEnd(lines: seq<string>, j: nat, fence: string): (e: nat)
    requires j <= |lines|
    ensures j <= e <= |lines|
    ensures e < |lines| ==> StartsWith(lines[e], fence)
    ensures forall k :: j <= k < e ==> !StartsWith(lines[k], fence)
    decreases |lines| - j
  {
    if j == |lines| || StartsWith(lines[j], fence) then j else FenceEnd(lines, j + 1, fence)
  }

  /** A line of an indented code block: four spaces or a tab in front. */
  predicate IsIndentedLine(line: string) {
    StartsWith(line, "    ") || StartsWith(line, "\t")
  }

  /** The end of the run of indented lines starting at `j`. */
  function IndentEnd(lines: seq<string>, j: nat): (e: nat)
    requires j <= |lines|
    ensures j <= e <= |lines|
    ensures e < |lines| ==> !IsIndentedLine(lines[e])
    ensures forall k :: j <= k < e ==> IsIndentedLine(lines[k])
    decreases |lines| - j
  {
    if j == |lines| || !IsIndentedLine(lines[j]) then j else IndentEnd(lines, j + 1)
  }

  /** The single span of a code block: its text, no annotations. */
  function CodeSpan(text: string): Span {
    Span(text, None, None, None)
  }

  // ---------------------------------------------------------------------
  // One line

  /** The heading branch. */
  function HeadingStep(d: Dialect, line: string, index: nat, next: nat): Step {
    var (id, next') := NewId(d, index, next);
    Step([Block(id, Heading(HeadingLevel(line)), Some(Tokenize(HeadingText(line))))], 1, next')
  }

  /** The blockquote branch: the run of lines starting with `>`. */
  function QuoteStep(d: Dialect, lines: seq<string>, index: nat, next: nat): (r: Step)
    requires index < |lines| && IsBlockquote(lines[index])
    ensures 1 <= r.consumed && index + r.consumed <= |lines| && r.next >= next
  {
    var e := QuoteEnd(lines, index);
    var (children, next') := QuoteChildren(d, lines, index, e, next);
    Step(children, e - index, next')
  }

  /** The fenced-code branch: the lines up to the next line starting with the
      same three characters. The current copy consumes the closing fence
      when there is one; the legacy copy always counts one line more. */
  function FenceStep(d: Dialect, lines: seq<string>, index: nat, next: nat): (r: Step)
    requires index < |lines| && IsFencedCodeBlock(lines[index])
    ensures 1 <= r.consumed && index + r.consumed <= |lines| + 1 && r.next >= next
  {
    var line := lines[index];
    var language := Trim(line[3..]);
    var e := FenceEnd(lines, index + 1, line[..3]);
    var (id, next') := NewId(d, index, next);
    var consumed := if d == Legacy || e < |lines| then e + 1 - index else e - index;
    Step([Block(id, Code(if language == [] then None else Some(language)),
                Some([CodeSpan(Join(lines[index + 1..e], "\n"))]))], consumed, next')
  }

  /** The indented-code branch: the run of lines with four spaces or a tab in front. */
  function IndentStep(d: Dialect, lines: seq<string>, index: nat, next: nat): (r: Step)
    requires index < |lines| && IsIndentedLine(lines[index])
    ensures 1 <= r.consumed && index + r.consumed <= |lines| && r.next >= next
  {
    var e := IndentEnd(lines, index);
    var (id, next') := NewId(d, index, next);
    Step([Block(id, Code(None), Some([CodeSpan(Join(lines[index..e], "\n"))]))], e - index, next')
  }

  /** The list branch: the run of list-item lines. */
  function ListStep(d: Dialect, lines: seq<string>, index: nat, next: nat): (r: Step)
    requires index < |lines| && IsListItem(lines[index])
    ensures 1 <= r.consumed && index + r.consumed <= |lines| && r.next >= next
  {
    var e := ListEnd(lines, index);
    var (children, next') := ListItems(d, lines, index, e, next);
    Step(children, e - index, next')
  }

  // ---------------------------------------------------------------------
  // One call of `parseLine`

  /** The number of tested branches of `parseLine`; a line that passes none
      of the tests is a paragraph. */
  const BranchCount: nat := 7

  /** `parseLine` from its `k`-th test on; `k == BranchCount` is the
      paragraph fallback. */
  function StepFrom(d: Dialect, lines: seq<string>, index: nat, next: nat, k: nat): (r: Option<Step>)
    requires index < |lines| && k <= BranchCount
    ensures r.Some? ==> 1 <= r.value.consumed && index + r.value.consumed <= |lines| + 1
    ensures r.Some? ==> r.value.next >= next
    decreases BranchCount - k, 1, lines
  {
    Branch(d, lines, index, next, k)
  }

  /** The `k`-th test of `parseLine`, in the order the source tries them: the
      branch's step when the line passes it, the later tests when it does not.
      The blank test is `line.trim() === ''`. */
  function Branch(d: Dialect, lines: seq<string>, index: nat, next: nat, k: nat): (r: Option<Step>)
    requires index < |lines| && k <= BranchCount
    ensures r.Some? ==> 1 <= r.value.consumed && index + r.value.consumed <= |lines| + 1
    ensures r.Some? ==> r.value.next >= next
    decreases BranchCount - k, 0, lines
  {
    var line := lines[index];
    match k
    case 0 => if IsHeading(line) then Some(HeadingStep(d, line, index, next)) else StepFrom(d, lines, index, next, 1)
    case 1 => if IsHorizontalRule(line) then Some(Step([Block(LineId(index), HorizontalRule, None)], 1, next))
              else StepFrom(d, lines, index, next, 2)
    case 2 => if IsBlockquote(line) then Some(QuoteStep(d, lines, index, next)) else StepFrom(d, lines, index, next, 3)
    case 3 => if IsFencedCodeBlock(line) then Some(FenceStep(d, lines, index, next)) else StepFrom(d, lines, index, next, 4)
    case 4 => if IsIndentedLine(line) then Some(IndentStep(d, lines, index, next)) else StepFrom(d, lines, index, next, 5)
    case 5 => if IsListItem(line) then Some(ListStep(d, lines, index, next)) else StepFrom(d, lines, index, next, 6)
    case 6 => if AllSpace(line) then None else StepFrom(d, lines, index, next, 7)
    case _ => Some(Step([Block(LineId(index), Paragraph, Some(Tokenize(line)))], 1, next))
  }

  /** `parseLine(lines, index)`: `None` where the source returns null. */
  function LineStep(d: Dialect, lines: seq<string>, index: nat, next: nat): (r: Option<Step>)
    requires index < |lines|
    ensures r.Some? ==> 1 <= r.value.consumed && index + r.value.consumed <= |lines| + 1
    ensures r.Some? ==> r.value.next >= next
  {
    StepFrom(d, lines, index, next, 0)
  }

  /** `LineStep` is the chain of tests of the source, tried in order. */
  lemma {:induction false} LineStepChain(d: Dialect, lines: seq<string>, index: nat, next: nat)
    requires index < |lines|
    ensures var line := lines[index];
      LineStep(d, lines, index, next) ==
        if IsHeading(line) then Some(HeadingStep(d, line, index, next))
        else if IsHorizontalRule(line) then Some(Step([Block(LineId(index), HorizontalRule, None)], 1, next))
        else if IsBlockquote(line) then Some(QuoteStep(d, lines, index, next))
        else if IsFencedCodeBlock(line) then Some(FenceStep(d, lines, index, next))
        else if IsIndentedLine(line) then Some(IndentStep(d, lines, index, next))
        else if IsListItem(line) then Some(ListStep(d, lines, index, next))
        else if AllSpace(line) then None
        else Some(Step([Block(LineId(index), Paragraph, Some(Tokenize(line)))], 1, next))
  {
    var line := lines[index];
    assert LineStep(d, lines, index, next) == Branch(d, lines, index, next, 0);
    assert StepFrom(d, lines, index, next, 1) == Branch(d, lines, index, next, 1);
    assert StepFrom(d, lines, index, next, 2) == Branch(d, lines, index, next, 2);
    assert StepFrom(d, lines, index, next, 3) == Branch(d, lines, index, next, 3);
    assert StepFrom(d, lines, index, next, 4) == Branch(d, lines, index, next, 4);
    assert StepFrom(d, lines, index, next, 5) == Branch(d, lines, index, next, 5);
    assert StepFrom(d, lines, index, next, 6) == Branch(d, lines, index, next, 6);
    assert StepFrom(d, lines, index, next, 7) == Branch(d, lines, index, next, 7);
  }

  /** `parseMarkdown` from line `i` on, with `next` fresh ids already used. */
  function ParseFrom(d: Dialect, lines: seq<string>, i: nat, next: nat): seq<Block>
    decreases |lines| - i, 1
  {
    if i >= |lines| then [] else Continue(d, lines, i, next)
  }

  /** One turn of the loop of `parseMarkdown` at line `i`: a null result of
      `parseLine` skips the line, a step moves past the lines it consumed. */
  function Continue(d: Dialect, lines: seq<string>, i: nat, next: nat): seq<Block>
    requires i < |lines|
    decreases |lines| - i, 0
  {
    match LineStep(d, lines, i, next)
    case None => ParseFrom(d, lines, i + 1, next)
    case Some(step) => step.blocks + ParseFrom(d, lines, i + step.consumed, step.next)
  }

  /** A line for which `parseLine` returns null is skipped. */
  lemma {:induction false} ParseFromSkip(d: Dialect, lines: seq<string>, i: nat, next: nat, at: nat)
    requires i < |lines| && LineStep(d, lines, i, next).None? && at == i + 1
    ensures ParseFrom(d, lines, i, next) == ParseFrom(d, lines, at, next)
  {
    assert ParseFrom(d, lines, i, next) == Continue(d, lines, i, next);
  }

  /** A step of `parseLine` contributes its blocks and moves on to line `at`,
      past the lines it consumed. */
  lemma {:induction false} ParseFromStep(d: Dialect, lines: seq<string>, i: nat, next: nat, step: Step, at: nat)
    requires i < |lines| && LineStep(d, lines, i, next) == Some(step) && at == i + step.consumed
    ensures ParseFrom(d, lines, i, next) == step.blocks + ParseFrom(d, lines, at, step.next)
  {
    assert ParseFrom(d, lines, i, next) == Continue(d, lines, i, next);
    ContinueStep(d, lines, i, next, step, at);
  }

  /** The turn of the loop at a line for which `parseLine` returns a step. */
  lemma {:induction false} ContinueStep(d: Dialect, lines: seq<string>, i: nat, next: nat, step: Step, at: nat)
    requires i < |lines| && LineStep(d, lines, i, next) == Some(step) && at == i + step.consumed
    ensures Continue(d, lines, i, next) == step.blocks + ParseFrom(d, lines, at, step.next)
  {
  }

  /** `parseMarkdown(markdown)`, the fresh ids counted from `next`. */
  function Parse(d: Dialect, markdown: string, next: nat): seq<Block> {
    ParseFrom(d, Split(markdown, '\n'), 0, next)
  }

  // ---------------------------------------------------------------------
  // The imperative parser

  /** Each of `lines` followed by a newline, as the code loops accumulate them. */
  function Terminated(lines: seq<string>): string {
    if lines == [] then [] else Terminated(lines[..|lines| - 1]) + lines[|lines| - 1] + "\n"
  }

  lemma {:induction false} JoinSnoc(lines: seq<string>, x: string, sep: string)
    requires lines != []
    ensures Join(lines + [x], sep) == Join(lines, sep) + sep + x
    decreases |lines|
  {
    if |lines| == 1 {
      assert lines + [x] == [lines[0]] + [x];
      JoinCons(lines[0], [x], sep);
    } else {
      assert (lines + [x])[1..] == lines[1..] + [x];
      JoinSnoc(lines[1..], x, sep);
      JoinCons(lines[0], lines[1..] + [x], sep);
      JoinCons(lines[0], lines[1..], sep);
      assert [lines[0]] + lines[1..] == lines;
      assert [lines[0]] + (lines[1..] + [x]) == lines + [x];
    }
  }

  /** Dropping the last newline of the accumulated code gives the lines joined by newlines. */
  lemma {:induction false} TerminatedJoin(lines: seq<string>)
    ensures lines == [] ==> Terminated(lines) == []
    ensures lines != [] ==> Terminated(lines) == Join(lines, "\n") + "\n"
    decreases |lines|
  {
    if |lines| > 1 {
      var init := lines[..|lines| - 1];
      TerminatedJoin(init);
      JoinSnoc(init, lines[|lines| - 1], "\n");
      assert init + [lines[|lines| - 1]] == lines;
    } else if |lines| == 1 {
      assert lines[..0] == [];
    }
  }

  /** The code text as the source builds it: every line plus `'\n'`, then the last `'\n'` removed. */
  method CodeContent(lines: seq<string>, from: nat, to: nat) returns (content: string)
    requires from <= to <= |lines|
    ensures content == Join(lines[from..to], "\n")
  {
    content := "";
    var j := from;
    while j < to
      invariant from <= j <= to
      invariant content == Terminated(lines[from..j])
    {
      assert lines[from..j + 1][..j - from] == lines[from..j];
      content := content + lines[j] + "\n";
      j := j + 1;
    }
    TerminatedJoin(lines[from..to]);
    if EndsWith(content, "\n") {
      content := content[..|content| - 1];
    }
  }

  /** A quote line continues the run: the run ends where it ended before. */
  lemma {:induction false} QuoteEndStep(lines: seq<string>, index: nat, j: nat, j': nat)
    requires index <= j < |lines| && j' == j + 1 && IsBlockquote(lines[j])
    requires QuoteEnd(lines, j) == QuoteEnd(lines, index)
    ensures QuoteEnd(lines, j') == QuoteEnd(lines, index)
  {
  }

  /** The blockquote loop keeps its invariant over line `j`, the loop
      having moved on to `j'`. */
  lemma {:induction false} QuoteChildrenStep(d: Dialect, lines: seq<string>, index: nat, j: nat, j': nat, next: nat,
                                             children: seq<Block>, serial: nat, children': seq<Block>, serial': nat)
    requires index <= j < |lines| && j' == j + 1
    requires (children, serial) == QuoteChildren(d, lines, index, j, next)
    requires MergeReady(lines, index, j, children)
    requires (children', serial') == QuoteAdd(d, lines, index, j, children, serial)
    ensures (children', serial') == QuoteChildren(d, lines, index, j', next)
  {
    assert j' - 1 == j;
  }

  /** Where the blockquote loop stops, it has built the blockquote branch's result. */
  lemma {:induction false} QuoteChildrenEnd(d: Dialect, lines: seq<string>, index: nat, j: nat, next: nat,
                                            children: seq<Block>, serial: nat)
    requires index < |lines| && IsBlockquote(lines[index]) && index <= j <= |lines|
    requires QuoteEnd(lines, j) == QuoteEnd(lines, index) && (j == |lines| || !IsBlockquote(lines[j]))
    requires (children, serial) == QuoteChildren(d, lines, index, j, next)
    ensures QuoteStep(d, lines, index, next) == Step(children, j - index, serial)
  {
  }

  /** One pass of the loop of the blockquote branch, on line `j` of the
      run: every branch of the source moves on to the next line. */
  method QuoteLine(d: Dialect, lines: seq<string>, index: nat, next: nat, j: nat, children: seq<Block>, serial: nat)
    returns (j': nat, children': seq<Block>, serial': nat)
    requires index <= j < |lines| && IsBlockquote(lines[j])
    requires QuoteEnd(lines, j) == QuoteEnd(lines, index)
    requires (children, serial) == QuoteChildren(d, lines, index, j, next)
    ensures j' == j + 1 && QuoteEnd(lines, j') == QuoteEnd(lines, index)
    ensures (children', serial') == QuoteChildren(d, lines, index, j', next)
  {
    if j > index && HasGreaterThanAndText(lines[j - 1])
       && BlockquoteLevel(lines[j - 1]) == BlockquoteLevel(lines[j]) {
      var more := GetRichText(" " + StripBlockquoteMarkers(lines[j]));
      var last := children[|children| - 1];
      children' := children[..|children| - 1] + [last.(richText := Some(last.richText.GetOr([]) + more))];
      serial' := serial;
    } else if IsOnlyBlockquoteMarker(lines[j]) {
      children', serial' := children, serial;
    } else {
      var text := GetRichText(StripBlockquoteMarkers(lines[j]));
      var (id, after) := NewId(d, j, serial);
      children' := children + [Block(id, Blockquote(BlockquoteLevel(lines[j])), Some(text))];
      serial' := after;
    }
    j' := j + 1;
    QuoteEndStep(lines, index, j, j');
    QuoteChildrenStep(d, lines, index, j, j', next, children, serial, children', serial');
  }

  /** The loop of the blockquote branch. */
  method ParseQuote(d: Dialect, lines: seq<string>, index: nat, next: nat) returns (r: Step)
    requires index < |lines| && IsBlockquote(lines[index])
    ensures r == QuoteStep(d, lines, index, next)
  {
    var children: seq<Block> := [];
    var j := index;
    var serial := next;
    while j < |lines| && IsBlockquote(lines[j])
      invariant index <= j <= |lines| && QuoteEnd(lines, j) == QuoteEnd(lines, index)
      invariant (children, serial) == QuoteChildren(d, lines, index, j, next)
      decreases |lines| - j
    {
      j, children, serial := QuoteLine(d, lines, index, next, j, children, serial);
    }
    QuoteChildrenEnd(d, lines, index, j, next, children, serial);
    return Step(children, j - index, serial);
  }

  /** The loop of the fenced-code branch. */
  method ParseFence(d: Dialect, lines: seq<string>, index: nat, next: nat) returns (r: Step)
    requires index < |lines| && IsFencedCodeBlock(lines[index])
    ensures r == FenceStep(d, lines, index, next)
  {
    var line := lines[index];
    var fence := line[..3];
    var language := Trim(line[3..]);
    ghost var end := FenceEnd(lines, index + 1, fence);
    var j := index + 1;
    var fenceClosed := false;
    while j < |lines|
      invariant index + 1 <= j <= |lines|
      invariant FenceEnd(lines, j, fence) == end
      decreases |lines| - j
    {
      if StartsWith(lines[j], fence) {
        fenceClosed := true;
        break;
      }
      j := j + 1;
    }
    var content := CodeContent(lines, index + 1, j);
    var (id, next') := NewId(d, index, next);
    var consumed := if d == Legacy || fenceClosed then j + 1 - index else j - index;
    return Step([Block(id, Code(if language == [] then None else Some(language)), Some([CodeSpan(content)]))], consumed, next');
  }

  /** The loop of the indented-code branch. */
  method ParseIndented(d: Dialect, lines: seq<string>, index: nat, next: nat) returns (r: Step)
    requires index < |lines| && IsIndentedLine(lines[index])
    ensures r == IndentStep(d, lines, index, next)
  {
    var j := index;
    while j < |lines| && IsIndentedLine(lines[j])
      invariant index <= j <= |lines|
      invariant IndentEnd(lines, j) == IndentEnd(lines, index)
      decreases |lines| - j
    {
      j := j + 1;
    }
    var content := CodeContent(lines, index, j);
    var (id, next') := NewId(d, index, next);
    return Step([Block(id, Code(None), Some([CodeSpan(content)]))], j - index, next');
  }

  /** The list loop keeps its invariants over line `j`, the loop having
      moved on to `j'`. */
  lemma {:induction false} ListItemsStep(d: Dialect, lines: seq<string>, index: nat, j: nat, j': nat, next: nat,
                                         children: seq<Block>, serial: nat, children': seq<Block>, serial': nat)
    requires index <= j < |lines| && j' == j + 1 && IsListItem(lines[j])
    requires ListEnd(lines, j) == ListEnd(lines, index)
    requires (children, serial) == ListItems(d, lines, index, j, next)
    requires ListMatch(lines[j]).None? ==> children' == children && serial' == serial
    requires ListMatch(lines[j]).Some? ==>
      var (id, after) := NewId(d, j, serial);
      children' == children + [ListItemBlock(d, ListMatch(lines[j]).value, id)] && serial' == after
    ensures ListEnd(lines, j') == ListEnd(lines, index)
    ensures (children', serial') == ListItems(d, lines, index, j', next)
  {
    assert ListEnd(lines, j) == ListEnd(lines, j');
    assert j' - 1 == j;
  }

  /** Where the list loop stops, it has built the list branch's result. */
  lemma {:induction false} ListItemsEnd(d: Dialect, lines: seq<string>, index: nat, j: nat, next: nat,
                                        children: seq<Block>, serial: nat)
    requires index < |lines| && IsListItem(lines[index]) && index <= j <= |lines|
    requires ListEnd(lines, j) == ListEnd(lines, index) && (j == |lines| || !IsListItem(lines[j]))
    requires (children, serial) == ListItems(d, lines, index, j, next)
    ensures ListStep(d, lines, index, next) == Step(children, j - index, serial)
  {
  }

  /** The loop of the list branch. */
  method ParseList(d: Dialect, lines: seq<string>, index: nat, next: nat) returns (r: Step)
    requires index < |lines| && IsListItem(lines[index])
    ensures r == ListStep(d, lines, index, next)
  {
    var children: seq<Block> := [];
    var j := index;
    var serial := next;
    while j < |lines| && IsListItem(lines[j])
      invariant index <= j <= |lines| && ListEnd(lines, j) == ListEnd(lines, index)
      invariant (children, serial) == ListItems(d, lines, index, j, next)
      decreases |lines| - j
    {
      var m := ListMatch(lines[j]);
      ghost var (children0, serial0, j0) := (children, serial, j);
      if m.Some? {
        var text := GetRichText(m.value.text);
        var (id, serial') := NewId(d, j, serial);
        children := children + [Block(id, ListItem(ListLevel(d, m.value.indent), ListFormat(m.value)), Some(text))];
        serial := serial';
      }
      j := j + 1;
      ListItemsStep(d, lines, index, j0, j, next, children0, serial0, children, serial);
    }
    ListItemsEnd(d, lines, index, j, next, children, serial);
    return Step(children, j - index, serial);
  }

  /** `parseLine`. */
  method ParseLine(d: Dialect, lines: seq<string>, index: nat, next: nat) returns (r: Option<Step>)
    requires index < |lines|
    ensures r == LineStep(d, lines, index, next)
  {
    var line := lines[index];
    LineStepChain(d, lines, index, next);
    if IsHeading(line) {
      var (id, next') := NewId(d, index, next);
      var text := GetRichText(HeadingText(line));
      return Some(Step([Block(id, Heading(HeadingLevel(line)), Some(text))], 1, next'));
    } else if IsHorizontalRule(line) {
      return Some(Step([Block(LineId(index), HorizontalRule, None)], 1, next));
    } else if IsBlockquote(line) {
      var step := ParseQuote(d, lines, index, next);
      return Some(step);
    } else if IsFencedCodeBlock(line) {
      var step := ParseFence(d, lines, index, next);
      return Some(step);
    } else if IsIndentedLine(line) {
      var step := ParseIndented(d, lines, index, next);
      return Some(step);
    } else if IsListItem(line) {
      var step := ParseList(d, lines, index, next);
      return Some(step);
    } else if AllSpace(line) {
      return None;
    }
    var text := GetRichText(line);
    return Some(Step([Block(LineId(index), Paragraph, Some(text))], 1, next));
  }

  /** `parseMarkdown`, handing out fresh ids from `next` on. */
  method ParseMarkdown(d: Dialect, markdown: string, next: nat) returns (blocks: seq<Block>)
    ensures blocks == Parse(d, markdown, next)
  {
    var lines := Split(markdown, '\n');
    blocks := ParseLines(d, lines, next);
  }

  /** The loop of `parseMarkdown` over the lines of the document. */
  method ParseLines(d: Dialect, lines: seq<string>, next: nat) returns (blocks: seq<Block>)
    ensures blocks == ParseFrom(d, lines, 0, next)
  {
    ghost var total := ParseFrom(d, lines, 0, next);
    blocks := [];
    var i: nat := 0;
    var serial := next;
    while i < |lines|
      invariant i <= |lines| + 1
      invariant blocks + ParseFrom(d, lines, i, serial) == total
      decreases |lines| + 1 - i
    {
      var parsed := ParseLine(d, lines, i, serial);
      ghost var (i0, serial0, blocks0) := (i, serial, blocks);
      if parsed.Some? {
        var step := parsed.value;
        blocks := blocks + step.blocks;
        serial := step.next;
        if step.consumed != 0 {
          i := i + step.consumed - 1;
        }
      }
      i := i + 1;
      if parsed.Some? {
        ParseFromStep(d, lines, i0, serial0, parsed.value, i);
        AppendAssoc(blocks0, parsed.value.blocks, ParseFrom(d, lines, i, serial));
      } else {
        ParseFromSkip(d, lines, i0, serial0, i);
      }
    }
  }


}
