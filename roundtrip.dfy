/**
 * Reading back what the serializer writes: `parseMarkdown` applied to the
 * output of `convertBlocksToMarkdown` gives back blocks of the same kinds
 * for a code block whose text has no line that would close its fence, and
 * for a top-level or once-indented bullet item; a bullet item indented
 * twice or more reads back as indented code.
 */
module RoundTrip {
  import opened Strings
  import opened Types
  import opened LinePredicates
  import opened Inline
  import opened Lexer
  import opened LexerProps
  import opened Serializer

  // ---------------------------------------------------------------------
  // Code blocks

  /** No line of the code starts with the fence the serializer writes. */
  predicate NoFenceLine(code: string) {
    forall k :: 0 <= k < |Split(code, '\n')| ==> !StartsWith(Split(code, '\n')[k], "```")
  }

  /** The lines of a fenced code block as the serializer writes it. */
  lemma {:induction false} FencedLines(code: string)
    ensures Split("```\n" + code + "\n```", '\n') == ["```"] + Split(code, '\n') + ["```"]
  {
    var f := "```";
    assert "```\n" + code + "\n```" == f + ['\n'] + (code + ['\n'] + f);
    SplitNone(f, '\n');
    Framed(f, code);
  }

  /** The pieces of `code` between two lines `f`. */
  lemma {:induction false} Framed(f: string, code: string)
    requires Split(f, '\n') == [f]
    ensures Split(f + ['\n'] + (code + ['\n'] + f), '\n') == [f] + Split(code, '\n') + [f]
  {
    SplitAppend(code, f, '\n');
    SplitAppend(f, code + ['\n'] + f, '\n');
  }

  /** A document holding one code block reads back as one code block with
      the same text. The language is not written, so the block comes back
      without one, and the id is the one the parser gives to line 0. */
  lemma {:induction false} CodeRoundTrip(d: Dialect, id: Id, language: Option<string>, spans: seq<Span>, next: nat)
    requires NoFenceLine(RawText(spans))
    ensures Parse(d, ConvertBlocksToMarkdown(d, [Block(id, Code(language), Some(spans))]), next)
      == [Block(NewId(d, 0, next).0, Code(None), Some([CodeSpan(RawText(spans))]))]
  {
    var code := RawText(spans);
    CodeDocument(d, Block(id, Code(language), Some(spans)));
    FencedLines(code);
    FencedParse(d, code, next);
  }

  /** The serializer writes a document holding one code block as its text
      between two fence lines, the trailing blank line trimmed. */
  lemma {:induction false} CodeDocument(d: Dialect, b: Block)
    requires b.kind.Code? && b.richText.Some?
    ensures ConvertBlocksToMarkdown(d, [b]) == "```\n" + RawText(b.richText.value) + "\n```"
  {
    var x := "```\n" + RawText(b.richText.value) + "\n```";
    assert [b][1..] == [];
    assert BlocksMarkdown(d, [b]) == x + "\n\n";
    TrimPadded(x, "\n\n");
  }

  /** The parser reads the lines of a fenced block, closed by its last
      line, as one code block holding the lines in between. */
  lemma {:induction false} FencedParse(d: Dialect, code: string, next: nat)
    requires NoFenceLine(code)
    ensures ParseFrom(d, ["```"] + Split(code, '\n') + ["```"], 0, next)
      == [Block(NewId(d, 0, next).0, Code(None), Some([CodeSpan(code)]))]
  {
    var parts := Split(code, '\n');
    var n := |parts|;
    var lines := ["```"] + parts + ["```"];
    assert lines[0] == "```" && lines[0][..3] == "```" && lines[n + 1] == "```";
    FenceTaken(d, lines, 0, next);
    FenceBlock(d, lines, 0, next);
    var e := FenceEnd(lines, 1, "```");
    assert forall k :: 1 <= k <= n ==> lines[k] == parts[k - 1];
    assert e == n + 1;
    assert lines[1..e] == parts;
    SplitJoin(code, '\n');
    assert Trim(lines[0][3..]) == [];
    var step := FenceStep(d, lines, 0, next);
    ParseFromStep(d, lines, 0, next, step, n + 2);
  }

  // ---------------------------------------------------------------------
  // Bullet items

  /** The indent of a list item is blanks only. */
  lemma {:induction false} RepeatSpaces(n: nat)
    ensures AllChar(Repeat("  ", n), ' ') && AllSpace(Repeat("  ", n))
  {
    if n > 0 {
      RepeatSpaces(n - 1);
      assert forall i :: 2 <= i < |Repeat("  ", n)| ==> Repeat("  ", n)[i] == Repeat("  ", n - 1)[i - 2];
    }
  }

  /** A bullet line after any whitespace is no heading and no rule: the
      trimmed line starts with the bullet and a space. */
  lemma {:induction false} BulletLineKind(ws: string, m: string)
    requires AllSpace(ws)
    ensures !IsHeading(ws + "- " + m) && !IsHorizontalRule(ws + "- " + m)
  {
    var x := "- " + m;
    assert ws + "- " + m == ws + x;
    TrimSpacedPrefix(ws, x);
    TrimOfUnspacedStart(x);
    var t := Trim(x);
    assert t[0] == '-';
    assert |t| >= 2 ==> t[1] == ' ';
  }

  /** The text the serializer puts after the bullet reads back whole: it
      stays on the line, and it does not start with whitespace, which the
      pattern would take as part of the gap, or with `[`, which could open a
      checkbox. */
  predicate BulletText(m: string) {
    NoLineTerminator(m) && (m == [] || (!IsSpace(m[0]) && m[0] != '['))
  }

  /** A bullet line indented by at most one level is matched by the list
      pattern with that indent, the bullet and the text, no checkbox, and
      no earlier test of `parseLine` takes it. */
  lemma {:induction false} BulletLine(ind: string, m: string)
    requires ind == "" || ind == "  "
    requires BulletText(m)
    ensures var line := ind + "- " + m;
      && IsListItem(line) && ListMatch(line) == Some(ListCapture(ind, "-", None, m))
      && !IsHeading(line) && !IsHorizontalRule(line) && !IsIndentedLine(line)
      && '\n' !in line
  {
    BulletLineMatch(ind, m);
    BulletLineKind(ind, m);
    BulletLineShallow(ind, m);
  }

  lemma {:induction false} BulletLineMatch(ind: string, m: string)
    requires ind == "" || ind == "  "
    requires BulletText(m)
    ensures var line := ind + "- " + m;
      IsListItem(line) && ListMatch(line) == Some(ListCapture(ind, "-", None, m))
  {
    var line := ind + "- " + m;
    var w := |ind|;
    assert line[w] == '-' && line[w + 1] == ' ';
    assert forall i :: 0 <= i < |m| ==> line[w + 2 + i] == m[i];
    SpaceEndAt(line, 0, w);
    assert MarkerLen(line, w) == 1;
    assert MarkerEnd(line) == w + 1;
    SpaceEndAt(line, w + 1, w + 2);
    assert CheckboxLen(line, w + 2) == 0;
    assert TextStart(line) == w + 2;
    NoTerminatorOfChars(line, w + 2);
    assert line[..w] == ind && line[w..w + 1] == "-" && line[w + 2..] == m;
  }

  /** With at most two blanks in front, the bullet falls within the first
      four characters, so the line is not indented code. */
  lemma {:induction false} BulletLineShallow(ind: string, m: string)
    requires ind == "" || ind == "  "
    requires NoLineTerminator(m)
    ensures var line := ind + "- " + m;
      !IsIndentedLine(line) && '\n' !in line
  {
    var line := ind + "- " + m;
    var w := |ind|;
    assert line[0] != '\t';
    assert |line| >= 4 ==> line[..4][w] == '-';
    assert forall i :: w + 2 <= i < |line| ==> line[i] == m[i - w - 2];
  }

  /** The two lines the parser sees for a bullet item: the item's line and
      the empty line after its newline. */
  lemma {:induction false} ItemLines(line: string)
    requires '\n' !in line
    ensures Split(line + "\n", '\n') == [line, ""]
  {
    SplitAppend(line, "", '\n');
    SplitNone(line, '\n');
    SplitNone("", '\n');
    assert line + "\n" == line + ['\n'] + "";
  }

  /** A bullet item of level 0 or 1, written by the serializer, reads back as
      one bullet item of the same level whose spans are the tokens of the
      text written for it. */
  lemma {:induction false} UnorderedItemRoundTrip(d: Dialect, id: Id, level: nat, spans: seq<Span>, next: nat)
    requires level <= 1
    requires Writable(d, Block(id, ListItem(level, Unordered), Some(spans)))
    requires BulletText(BodyMarkup(d, spans, ListItem(level, Unordered)))
    ensures Parse(d, BlockMarkdown(d, Block(id, ListItem(level, Unordered), Some(spans))), next)
      == [Block(NewId(d, 0, next).0, ListItem(level, Unordered), Some(Tokenize(BodyMarkup(d, spans, ListItem(level, Unordered)))))]
  {
    var m := BodyMarkup(d, spans, ListItem(level, Unordered));
    var ind := Repeat("  ", level);
    assert ind == if level == 0 then "" else "  ";
    var line := ind + "- " + m;
    assert BlockMarkdown(d, Block(id, ListItem(level, Unordered), Some(spans))) == line + "\n";
    BulletLine(ind, m);
    ItemLines(line);
    BulletParse(d, ind, m, level, next);
  }

  /** The parser reads a shallow bullet line followed by an empty line as
      one bullet item of the indent's level. */
  lemma {:induction false} BulletParse(d: Dialect, ind: string, m: string, level: nat, next: nat)
    requires ind == Repeat("  ", level) && level <= 1
    requires BulletText(m)
    ensures ParseFrom(d, [ind + "- " + m, ""], 0, next)
      == [Block(NewId(d, 0, next).0, ListItem(level, Unordered), Some(Tokenize(m)))]
  {
    assert ind == if level == 0 then "" else "  ";
    var line := ind + "- " + m;
    BulletLine(ind, m);
    var lines := [line, ""];
    ListTaken(d, lines, 0, next);
    assert MarkerEnd(lines[1]) == 0;
    assert ListEnd(lines, 0) == 1;
    var cap := ListCapture(ind, "-", None, m);
    assert LeadingDigits(cap.marker) == 0;
    assert ListLevel(d, ind) == level;
    var step := ListStep(d, lines, 0, next);
    assert step.blocks == [ListItemBlock(d, cap, NewId(d, 0, next).0)];
    ParseFromStep(d, lines, 0, next, step, 1);
    LineStepNone(d, lines, 1, step.next);
    ParseFromSkip(d, lines, 1, step.next, 2);
  }

  /** A bullet item of level 2 or more is written with at least four spaces
      in front, so the parser reads its line as indented code. */
  lemma {:induction false} DeepItemReadsAsCode(d: Dialect, id: Id, level: nat, spans: seq<Span>, next: nat)
    requires level >= 2
    requires Writable(d, Block(id, ListItem(level, Unordered), Some(spans)))
    requires NoLineTerminator(BodyMarkup(d, spans, ListItem(level, Unordered)))
    ensures var r := Parse(d, BlockMarkdown(d, Block(id, ListItem(level, Unordered), Some(spans))), next);
      |r| == 1 && r[0].kind == Code(None)
  {
    var m := BodyMarkup(d, spans, ListItem(level, Unordered));
    var ind := Repeat("  ", level);
    var line := ind + "- " + m;
    assert BlockMarkdown(d, Block(id, ListItem(level, Unordered), Some(spans))) == line + "\n";
    DeepLine(ind, m, level);
    ItemLines(line);
    DeepParse(d, line, next);
  }

  /** A bullet line indented twice or more starts with four blanks, and it
      stays on one line. */
  lemma {:induction false} DeepLine(ind: string, m: string, level: nat)
    requires ind == Repeat("  ", level) && level >= 2
    requires NoLineTerminator(m)
    ensures var line := ind + "- " + m;
      && IsIndentedLine(line) && !IsHeading(line) && !IsHorizontalRule(line) && '\n' !in line
  {
    var line := ind + "- " + m;
    assert ind == "  " + ("  " + Repeat("  ", level - 2));
    RepeatSpaces(level);
    BulletLineKind(ind, m);
    assert line[..4] == "    ";
    assert forall i :: 0 <= i < |ind| ==> line[i] == ind[i];
    assert forall i :: |ind| + 2 <= i < |line| ==> line[i] == m[i - |ind| - 2];
  }

  /** An indented line followed by an empty line is read as one code block. */
  lemma {:induction false} DeepParse(d: Dialect, line: string, next: nat)
    requires IsIndentedLine(line) && !IsHeading(line) && !IsHorizontalRule(line)
    ensures var r := ParseFrom(d, [line, ""], 0, next);
      |r| == 1 && r[0].kind == Code(None)
  {
    var lines := [line, ""];
    IndentTaken(d, lines, 0, next);
    IndentBlock(d, lines, 0, next);
    var step := IndentStep(d, lines, 0, next);
    var e := IndentEnd(lines, 0);
    ParseFromStep(d, lines, 0, next, step, e);
    if e == 1 {
      LineStepNone(d, lines, 1, step.next);
      ParseFromSkip(d, lines, 1, step.next, 2);
    }
  }
}
