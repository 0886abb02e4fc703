/**
 * The line classifiers of the block parser. Each one is a regular-expression
 * test in the source; here each is computed directly from the character
 * classes, following the one way the pattern can match.
 */
module LinePredicates {
  import opened Strings
  import opened Types

  // ---------------------------------------------------------------------
  // List items

  predicate IsBulletChar(c: char) {
    c == '-' || c == '*' || c == '+'
  }

  /** Length of the marker `[-*+]|\d+\.` at position `w` of `s`, 0 when there is none. */
  function MarkerLen(s: string, w: nat): (n: nat)
    requires w <= |s|
    ensures w + n <= |s|
  {
    if w < |s| && IsBulletChar(s[w]) then 1
    else
      var d := DigitEnd(s, w);
      if w < d < |s| && s[d] == '.' then d + 1 - w else 0
  }

  /** A marker is one bullet, or one or more digits and a dot; there is none
      exactly when neither starts at `w`. */
  lemma {:induction false} MarkerLenMeaning(s: string, w: nat)
    requires w <= |s|
    ensures MarkerLen(s, w) == 1 ==> IsBulletChar(s[w])
    ensures MarkerLen(s, w) >= 2 ==> s[w + MarkerLen(s, w) - 1] == '.'
    ensures MarkerLen(s, w) >= 2 ==> forall i :: w <= i < w + MarkerLen(s, w) - 1 ==> IsDigit(s[i])
    ensures MarkerLen(s, w) == 0 <==>
      (w == |s| || (!IsBulletChar(s[w]) && (DigitEnd(s, w) == w || DigitEnd(s, w) == |s| || s[DigitEnd(s, w)] != '.')))
  {
    DigitEndDigits(s, w);
  }

  /** Length of the checkbox `\[ ?[xX]?\]` at position `p` of `s`, 0 when there is none. */
  function CheckboxLen(s: string, p: nat): (n: nat)
    requires p <= |s|
    ensures n == 0 || (2 <= n <= 4 && p + n <= |s| && s[p] == '[' && s[p + n - 1] == ']')
  {
    if p == |s| || s[p] != '[' then 0
    else
      var a := if p + 1 < |s| && s[p + 1] == ' ' then p + 2 else p + 1;
      var b := if a < |s| && (s[a] == 'x' || s[a] == 'X') then a + 1 else a;
      if b < |s| && s[b] == ']' then b + 1 - p else 0
  }

  /** The optional tail `(?:\s+.*)?$` matches all of `s` from `e` on:
      nothing, or whitespace followed by text on one line. */
  predicate SpaceTail(s: string, e: nat)
    requires e <= |s|
  {
    e == |s| || (IsSpace(s[e]) && NoTerminatorFrom(s, SpaceEnd(s, e)))
  }

  /** Where the marker ends: after the leading whitespace and the marker, or 0 without a marker. */
  function MarkerEnd(line: string): (e: nat)
    ensures e <= |line|
  {
    var w := SpaceEnd(line, 0);
    var k := MarkerLen(line, w);
    if k == 0 then 0 else w + k
  }

  /** Where a checkbox may start: after the whitespace that follows the marker. */
  function BoxStart(line: string): (p: nat)
    requires MarkerEnd(line) > 0
    ensures MarkerEnd(line) <= p <= |line|
  {
    SpaceEnd(line, MarkerEnd(line))
  }

  /** `isListItem`: `^(\s*(?:[-*+]|\d+\.)\s*(?:\[ ?[xX]?\])?(?:\s+.*)?)$`. A
      marker, then either nothing or whitespace before the text, optionally
      with a checkbox in between. */
  predicate IsListItem(line: string) {
    && MarkerEnd(line) > 0
    && var p := BoxStart(line);
       var c := CheckboxLen(line, p);
       SpaceTail(line, MarkerEnd(line)) || (c > 0 && SpaceTail(line, p + c))
  }

  /** The captures of `^(\s*)([-*+]|\d+\.)\s*(?:\[ ?([xX]?)\]\s*)?(.*)?$`. */
  datatype ListCapture = ListCapture(indent: string, marker: string, checkbox: Option<string>, text: string)

  /** Where the captured text starts: after the checkbox and its whitespace, if there is a checkbox. */
  function TextStart(line: string): (q: nat)
    requires MarkerEnd(line) > 0
    ensures BoxStart(line) <= q <= |line|
  {
    var p := BoxStart(line);
    var c := CheckboxLen(line, p);
    if c == 0 then p else SpaceEnd(line, p + c)
  }

  /** The match of the list-item pattern: leading whitespace, the marker,
      the optional checkbox's mark, and the text up to the end of the line. */
  function ListMatch(line: string): (r: Option<ListCapture>)
    ensures r.Some? ==> |r.value.marker| >= 1
  {
    if MarkerEnd(line) == 0 || !NoTerminatorFrom(line, TextStart(line)) then None
    else
      var w := SpaceEnd(line, 0);
      var p := BoxStart(line);
      var c := CheckboxLen(line, p);
      var mark := if c >= 3 && (line[p + c - 2] == 'x' || line[p + c - 2] == 'X') then [line[p + c - 2]] else [];
      Some(ListCapture(line[..w], line[w..MarkerEnd(line)], if c > 0 then Some(mark) else None, line[TextStart(line)..]))
  }

  /** The captures of a match: whitespace, a marker, and text on one line. */
  lemma {:induction false} ListMatchCaptures(line: string)
    requires ListMatch(line).Some?
    ensures AllSpace(ListMatch(line).value.indent)
    ensures NoLineTerminator(ListMatch(line).value.text)
    ensures ListMatch(line).value.checkbox.Some? ==> ListMatch(line).value.checkbox.value in {"", "x", "X"}
  {
    var cap := ListMatch(line).value;
    var w := SpaceEnd(line, 0);
    SpaceEndSpaces(line, 0);
    assert forall i :: 0 <= i < |cap.indent| ==> cap.indent[i] == line[i];
    var q := TextStart(line);
    NoTerminatorFromChars(line, q);
    assert forall i :: 0 <= i < |cap.text| ==> cap.text[i] == line[q + i];
  }

  /** Every line that `isListItem` accepts is matched by the capturing
      pattern, so no line of a list run is skipped. */
  lemma {:induction false} ListItemMatches(line: string)
    requires IsListItem(line)
    ensures ListMatch(line).Some?
  {
    var e := MarkerEnd(line);
    var p := BoxStart(line);
    var c := CheckboxLen(line, p);
    var q := TextStart(line);
    if !(c > 0 && SpaceTail(line, p + c)) && e < |line| {
      NoTerminatorFromLater(line, p, q);
    }
  }

  /** `-item` is not a list item: the marker must be followed by whitespace. */
  lemma {:induction false} ListItemNeedsSpace()
    ensures !IsListItem("-item")
  {
    assert SpaceEnd("-item", 0) == 0;
    assert MarkerLen("-item", 0) == 1;
    assert SpaceEnd("-item", 1) == 1;
    assert CheckboxLen("-item", 1) == 0;
  }

  /** A bare marker is a list item. */
  lemma {:induction false} BareMarkerIsListItem()
    ensures IsListItem("-")
  {
    assert SpaceEnd("-", 0) == 0;
    assert MarkerLen("-", 0) == 1;
    assert SpaceEnd("-", 1) == 1;
  }

  // ---------------------------------------------------------------------
  // Fences, quotes, rules and headings

  /** `isFencedCodeBlock`. */
  predicate IsFencedCodeBlock(line: string) {
    StartsWith(line, "```") || StartsWith(line, "~~~")
  }

  /** `isBlockquote`. */
  predicate IsBlockquote(line: string) {
    |line| > 0 && line[0] == '>'
  }

  /** `isHorizontalRule`: the trimmed line is three or more `-`, or three or more `*`. */
  predicate IsHorizontalRule(line: string) {
    var t := Trim(line);
    |t| >= 3 && (AllChar(t, '-') || AllChar(t, '*'))
  }

  /** `isHeading`: the trimmed line starts with one to six `#`, one space
      and a character that is not whitespace. */
  predicate IsHeading(line: string) {
    var t := Trim(line);
    var h := LeadingRun(t, '#');
    1 <= h <= 6 && h + 1 < |t| && t[h] == ' ' && !IsSpace(t[h + 1])
  }

  /** `getHeadingLevel`: the number of `#` the untrimmed line starts with. */
  function HeadingLevel(line: string): (n: nat)
    ensures n <= |line| && AllChar(line[..n], '#')
    ensures n < |line| ==> line[n] != '#'
  {
    LeadingRun(line, '#')
  }

  /** `getHeadingText`: the untrimmed line without `^#{1,6}\s+`. */
  function HeadingText(line: string): (r: string)
    ensures EndsWith(line, r)
    ensures r != line <==> 1 <= HeadingLevel(line) <= 6 && HeadingLevel(line) < |line| && IsSpace(line[HeadingLevel(line)])
    ensures r != line ==> r == [] || !IsSpace(r[0])
  {
    var h := LeadingRun(line, '#');
    if 1 <= h <= 6 && h < |line| && IsSpace(line[h]) then
      var n := h + LeadingSpace(line[h..]);
      assert line[n..] == line[|line| - |line[n..]|..];
      line[n..]
    else line
  }

  // Blockquote markers

  predicate IsQuoteChar(c: char) {
    c == '>' || IsSpace(c)
  }

  /** Length of the longest prefix made of `>` and whitespace. */
  function QuoteRun(s: string): (n: nat)
    ensures n <= |s|
    ensures forall i :: 0 <= i < n ==> IsQuoteChar(s[i])
    ensures n < |s| ==> !IsQuoteChar(s[n])
  {
    if s == [] || !IsQuoteChar(s[0]) then 0 else 1 + QuoteRun(s[1..])
  }

  /** Length of the match of `^(>\s*)+`: the run of `>` and whitespace, when the line starts with `>`. */
  function MarkerPrefix(line: string): (n: nat)
    ensures n <= |line|
    ensures n > 0 <==> IsBlockquote(line)
  {
    if IsBlockquote(line) then QuoteRun(line) else 0
  }

  /** `getBlockquoteLevel`: the number of `>` in the marker prefix. */
  function BlockquoteLevel(line: string): (n: nat)
    ensures n >= 1 <==> IsBlockquote(line)
  {
    var p := MarkerPrefix(line);
    if p > 0 then assert line[..p][0] == '>'; Count(line[..p], '>') else 0
  }

  /** `stripBlockquoteMarkers`. */
  function StripBlockquoteMarkers(line: string): (r: string)
    ensures EndsWith(line, r)
    ensures IsBlockquote(line) ==> r == [] || !IsQuoteChar(r[0])
    ensures !IsBlockquote(line) ==> r == line
  {
    var p := MarkerPrefix(line);
    assert line[p..] == line[|line| - |line[p..]|..];
    line[p..]
  }

  /** `hasGreaterThanAndText`: `^(?=.*>)(?=.*[^\s>]).+$` — a non-empty line
      holding a `>` and a character that is neither whitespace nor `>`. */
  predicate HasGreaterThanAndText(line: string) {
    && |line| > 0 && NoLineTerminator(line) && '>' in line
    && exists i :: 0 <= i < |line| && !IsQuoteChar(line[i])
  }

  /** `isOnlyBlockquoteMarker`: `^\s*(>\s*)+\s*$` — only `>` and whitespace, with at least one `>`. */
  predicate IsOnlyBlockquoteMarker(line: string) {
    (forall i :: 0 <= i < |line| ==> IsQuoteChar(line[i])) && '>' in line
  }

  /** A quote line holds only markers exactly when stripping them leaves nothing. */
  lemma {:induction false} OnlyMarkerIffStripsToEmpty(line: string)
    requires IsBlockquote(line)
    ensures IsOnlyBlockquoteMarker(line) <==> StripBlockquoteMarkers(line) == []
  {
    assert line[0] in line;
    var p := MarkerPrefix(line);
    if !IsOnlyBlockquoteMarker(line) {
      var i :| 0 <= i < |line| && !IsQuoteChar(line[i]);
      assert p <= i;
    }
  }

  /** A line of markers only has no text. */
  lemma {:induction false} OnlyMarkerHasNoText(line: string)
    requires IsOnlyBlockquoteMarker(line)
    ensures !HasGreaterThanAndText(line)
  {
  }

  /** On a one-line quote line, "has text" and "only markers" are complementary. */
  lemma {:induction false} HasTextIffNotOnlyMarker(line: string)
    requires IsBlockquote(line) && NoLineTerminator(line)
    ensures HasGreaterThanAndText(line) <==> !IsOnlyBlockquoteMarker(line)
  {
    assert line[0] in line;
  }

  lemma {:induction false} RepeatedMarkersAreQuoteChars(n: nat)
    ensures forall i :: 0 <= i < |Repeat("> ", n)| ==> IsQuoteChar(Repeat("> ", n)[i])
  {
    if n > 0 {
      RepeatedMarkersAreQuoteChars(n - 1);
      var r := Repeat("> ", n);
      assert r == "> " + Repeat("> ", n - 1);
      forall i | 0 <= i < |r| ensures IsQuoteChar(r[i]) {
        if i >= 2 {
          assert r[i] == Repeat("> ", n - 1)[i - 2];
        }
      }
    }
  }

  lemma {:induction false} QuoteRunPrefix(n: nat, text: string)
    requires text == [] || !IsQuoteChar(text[0])
    ensures QuoteRun(Repeat("> ", n) + text) == 2 * n
  {
    var r := Repeat("> ", n);
    var s := r + text;
    RepeatedMarkersAreQuoteChars(n);
    assert forall i :: 0 <= i < |r| ==> s[i] == r[i];
    assert 2 * n < |s| ==> s[2 * n] == text[0];
  }

  lemma {:induction false} CountQuotes(n: nat)
    ensures Count(Repeat("> ", n), '>') == n
  {
    if n > 0 {
      CountQuotes(n - 1);
      assert Repeat("> ", n)[1..][1..] == Repeat("> ", n - 1);
    }
  }

  lemma {:induction false} CountAppendNone(a: string, b: string, c: char)
    requires c !in b
    ensures Count(a + b, c) == Count(a, c)
    decreases |a|
  {
    if a == [] {
      assert a + b == b;
    } else {
      assert (a + b)[1..] == a[1..] + b;
      CountAppendNone(a[1..], b, c);
    }
  }

  /** The serializer writes a quote of level `n` as `'> '` repeated `n` times
      before its text; such a line has level `n` and strips back to the text. */
  lemma {:induction false} QuoteLineRoundTrip(n: nat, text: string)
    requires n >= 1 && (text == [] || !IsQuoteChar(text[0]))
    ensures BlockquoteLevel(Repeat("> ", n) + text) == n
    ensures StripBlockquoteMarkers(Repeat("> ", n) + text) == text
  {
    var line := Repeat("> ", n) + text;
    QuoteRunPrefix(n, text);
    CountQuotes(n);
    assert line[0] == '>';
    assert line[..2 * n] == Repeat("> ", n);
    assert line[2 * n..] == text;
  }

  /** Where the line is already trimmed before its heading marker, the
      level, the text and the trimmed test agree. */
  lemma {:induction false} HeadingParts(line: string)
    requires IsHeading(line) && !IsSpace(line[0])
    ensures 1 <= HeadingLevel(line) <= 6
    ensures HeadingText(line) == line[HeadingLevel(line) + 1..]
    ensures HeadingText(line) != [] && !IsSpace(HeadingText(line)[0])
  {
    var t := Trim(line);
    assert !AllSpace(line);
    var h := LeadingRun(t, '#');
    TrimOfUnspacedStart(line);
    assert t == line[..|t|];
    assert line[..h] == t[..h];
    assert HeadingLevel(line) == h;
    assert line[h..][0] == ' ' && line[h..][1] == t[h + 1];
    assert LeadingSpace(line[h..]) == 1;
  }

  lemma {:induction false} TrimOfUnspacedStart(s: string)
    requires s != [] && !IsSpace(s[0])
    ensures |Trim(s)| > 0 && Trim(s) == s[..|Trim(s)|]
  {
    assert !AllSpace(s);
    assert LeadingSpace(s) == 0;
    assert s[0..] == s;
  }

  /** A heading line with leading whitespace passes `isHeading` (which trims)
      but has level 0 (`getHeadingLevel` does not trim) and keeps its
      markup as text. */
  lemma {:induction false} IndentedHeadingHasLevelZero(line: string)
    requires IsHeading(line) && IsSpace(line[0])
    ensures HeadingLevel(line) == 0 && HeadingText(line) == line
  {
    assert !AllSpace(line);
  }

  lemma {:induction false} LeadingRunIs(s: string, c: char, n: nat)
    requires n < |s| && AllChar(s[..n], c) && s[n] != c
    ensures LeadingRun(s, c) == n
  {
  }

  /** The level and text `getHeadingLevel` and `getHeadingText` read from a
      serialized heading line. */
  lemma {:induction false} HeadingLineParts(level: nat, text: string)
    requires 1 <= level <= 6 && text != [] && !IsSpace(text[0])
    ensures HeadingLevel(Repeat("#", level) + " " + text) == level
    ensures HeadingText(Repeat("#", level) + " " + text) == text
  {
    var line := Repeat("#", level) + " " + text;
    HashRun(level, " " + text);
    assert line == Repeat("#", level) + (" " + text);
    assert line[level..][0] == ' ' && line[level..][1] == text[0];
    assert LeadingSpace(line[level..]) == 1;
    assert line[level + 1..] == text;
  }

  /** The serializer writes a heading as `#` repeated `level` times, a space and
      its text; when the text starts with a visible character the line is a
      heading with that level and that text. */
  lemma {:induction false} HeadingLineRoundTrip(level: nat, text: string)
    requires 1 <= level <= 6 && text != [] && !IsSpace(text[0])
    ensures IsHeading(Repeat("#", level) + " " + text)
    ensures HeadingLevel(Repeat("#", level) + " " + text) == level
    ensures HeadingText(Repeat("#", level) + " " + text) == text
  {
    HeadingLineParts(level, text);
    var line := Repeat("#", level) + " " + text;
    assert line[level] == ' ' && line[level + 1] == text[0];
    assert line[0] == '#';
    assert line[level + 1..][0] == text[0];
    TrimKeeps(line, level + 1);
    TrimOfUnspacedStart(line);
    var t := Trim(line);
    assert t[..level] == line[..level];
    assert t[level] == ' ' && t[level + 1] == text[0];
    LeadingRunIs(t, '#', level);
  }

  lemma {:induction false} HashRun(n: nat, rest: string)
    requires rest == [] || rest[0] != '#'
    ensures LeadingRun(Repeat("#", n) + rest, '#') == n
  {
    if n > 0 {
      HashRun(n - 1, rest);
      assert (Repeat("#", n) + rest)[1..] == Repeat("#", n - 1) + rest;
    }
  }

  /** Trimming keeps every character up to a non-space one at position `k` or later. */
  lemma {:induction false} TrimKeeps(s: string, k: nat)
    requires k < |s| && !IsSpace(s[0]) && !AllSpace(s[k..])
    ensures |Trim(s)| > k
  {
    var i :| 0 <= i < |s[k..]| && !IsSpace(s[k..][i]);
    assert !IsSpace(s[k + i]);
    TrimOfUnspacedStart(s);
    var t := Trim(s);
    var b := TrailingSpace(s[LeadingSpace(s)..]);
    assert LeadingSpace(s) == 0 && s[0..] == s;
    assert AllSpace(s[|s| - b..]);
  }

  /** A horizontal rule is never a heading, so the heading test before it does not hide it. */
  lemma {:induction false} RuleIsNoOtherKind(line: string)
    requires IsHorizontalRule(line)
    ensures !IsHeading(line)
  {
    var t := Trim(line);
    assert t[0] == '-' || t[0] == '*';
  }

  /** The rule the serializer writes. */
  lemma {:induction false} RuleLine()
    ensures IsHorizontalRule("---") && !IsHeading("---")
  {
    assert LeadingSpace("---") == 0;
    assert TrailingSpace("---") == 0;
    assert Trim("---") == "---";
  }

  /** A blank line passes none of the tests tried before the blank test
      except the indented-code one. */
  lemma {:induction false} BlankIsNoOtherKind(line: string)
    requires AllSpace(line)
    ensures !IsHeading(line) && !IsHorizontalRule(line) && !IsBlockquote(line)
    ensures !IsFencedCodeBlock(line) && !IsListItem(line)
  {
    if |line| > 0 {
      assert IsSpace(line[0]);
    }
    if |line| >= 3 {
      assert line[..3][0] == line[0];
    }
    assert SpaceEnd(line, 0) == |line|;
  }

  /** A fence line is no heading, rule or quote, so the earlier tests do not hide it. */
  lemma {:induction false} FenceIsNoOtherKind(line: string)
    requires IsFencedCodeBlock(line)
    ensures !IsHeading(line) && !IsHorizontalRule(line) && !IsBlockquote(line)
  {
    assert line[0] == line[..3][0];
    TrimOfUnspacedStart(line);
    assert Trim(line)[0] == line[0];
  }

  /** A quote line is no heading or rule, so the earlier tests do not hide it. */
  lemma {:induction false} QuoteIsNoOtherKind(line: string)
    requires IsBlockquote(line)
    ensures !IsHeading(line) && !IsHorizontalRule(line)
  {
    TrimOfUnspacedStart(line);
    assert Trim(line)[0] == line[0];
  }

  /** A list line starts with whitespace, a bullet or a digit, so it is no quote or fence. */
  lemma {:induction false} ListLineIsNoQuoteOrFence(line: string)
    requires IsListItem(line)
    ensures !IsBlockquote(line) && !IsFencedCodeBlock(line)
  {
    var w := SpaceEnd(line, 0);
    MarkerLenMeaning(line, w);
    DigitEndDigits(line, w);
    if w == 0 {
      assert IsBulletChar(line[0]) || IsDigit(line[0]);
    } else {
      assert IsSpace(line[0]) by {
        SpaceEndSpaces(line, 0);
      }
    }
    if |line| >= 3 {
      assert line[0] == line[..3][0];
    }
  }
}
