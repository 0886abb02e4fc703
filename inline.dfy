/**
 * The inline tokenizer `getRichText`: one left-to-right scan with the
 * combined pattern of ten alternatives. At each position the alternatives
 * are tried in order (image, `***`, `___`, `**`, `__`, `*`, `_`, code,
 * strikethrough, link); the leftmost position at or after the previous
 * match where one of them matches wins. Every character class of an
 * alternative excludes its own delimiter, so each alternative matches at a
 * position in at most one way, and the matchers below compute that way.
 */
module Inline {
  import opened Strings
  import opened Types

  /** A match of the combined pattern: where it ends and the span it yields. */
  datatype Match = Match(end: nat, span: Span)

  /** A span of the scan together with the input region `[start, end)` it came from. */
  datatype Token = Token(start: nat, end: nat, span: Span)

  /** The characters at which some alternative can start. */
  predicate IsSpecial(c: char) {
    c == '!' || c == '*' || c == '_' || c == '`' || c == '~' || c == '['
  }

  /** The lookbehind `(?<!c)` at position `p`. */
  predicate NotPrecededBy(s: string, p: nat, c: char)
    requires p <= |s|
  {
    p == 0 || s[p - 1] != c
  }

  /** The lookahead `(?!c)` at position `p`. */
  predicate NotFollowedBy(s: string, p: nat, c: char)
    requires p <= |s|
  {
    p == |s| || s[p] != c
  }

  /** `c{n}([^c]+)c{n}` at `p`, wrapped in `(?<!c)` ... `(?!c)` when `guarded`:
      the end of the match and the captured text. */
  function Delimited(s: string, p: nat, c: char, n: nat, guarded: bool): (r: Option<(nat, string)>)
    requires p <= |s| && n >= 1
    ensures r.Some? ==> p + 2 * n < r.value.0 <= |s| && p < |s| && s[p] == c
    ensures r.Some? ==> r.value.1 == s[p + n..r.value.0 - n] && r.value.1 != []
    ensures r.Some? ==> c !in r.value.1
  {
    if guarded && !NotPrecededBy(s, p, c) then None
    else if p + n > |s| || !AllChar(s[p..p + n], c) then None
    else
      var e := FindFrom(s, p + n, c);
      if e == p + n || e + n > |s| || !AllChar(s[e..e + n], c) then None
      else if guarded && !NotFollowedBy(s, e + n, c) then None
      else
        assert s[p..p + n][0] == s[p];
        Some((e + n, s[p + n..e]))
  }

  /** `\[([^\]]*)\]\(([^)]+)\)` at `q` (text possibly empty when `emptyText`):
      the end of the match, the bracketed text and the parenthesised target. */
  function Bracketed(s: string, q: nat, emptyText: bool): (r: Option<(nat, string, string)>)
    requires q <= |s|
    ensures r.Some? ==> q < |s| && s[q] == '[' && r.value.0 <= |s|
    ensures r.Some? ==> q + 4 + |r.value.1| + |r.value.2| == r.value.0
    ensures r.Some? ==> r.value.2 != [] && (!emptyText ==> r.value.1 != [])
    ensures r.Some? ==> ']' !in r.value.1 && ')' !in r.value.2
    ensures r.Some? ==> r.value.1 == s[q + 1..q + 1 + |r.value.1|]
    ensures r.Some? ==> r.value.2 == s[q + 3 + |r.value.1|..r.value.0 - 1]
  {
    if q >= |s| || s[q] != '[' then None
    else
      var a := FindFrom(s, q + 1, ']');
      if (!emptyText && a == q + 1) || a + 1 >= |s| || s[a + 1] != '(' then None
      else
        var u := FindFrom(s, a + 2, ')');
        if u == a + 2 || u == |s| then None
        else Some((u + 1, s[q + 1..a], s[a + 2..u]))
  }

  /** `!\[(?<imgAlt>[^\]]*)\]\((?<imgUrl>[^)]+)\)`: an empty span carrying the image. */
  function ImageAt(s: string, p: nat): Option<Match>
    requires p <= |s|
  {
    if p < |s| && s[p] == '!' then
      match Bracketed(s, p + 1, true)
      case Some((e, alt, url)) => Some(Match(e, Span([], Some(NoAnnotations), None, Some(Image(alt, url)))))
      case None => None
    else None
  }

  /** One of the emphasis, code and strikethrough alternatives. */
  function DelimitedAt(s: string, p: nat, c: char, n: nat, guarded: bool, ann: Annotations): Option<Match>
    requires p <= |s| && n >= 1
  {
    match Delimited(s, p, c, n, guarded)
    case Some((e, text)) => Some(Match(e, Span(text, Some(ann), None, None)))
    case None => None
  }

  /** `\[(?<linkText>[^\]]+)\]\((?<linkHref>[^)]+)\)`: an underlined span with its link. */
  function LinkAt(s: string, p: nat): Option<Match>
    requires p <= |s|
  {
    match Bracketed(s, p, false)
    case Some((e, text, href)) => Some(Match(e, Span(text, Some(Underline), Some(href), None)))
    case None => None
  }

  /** The spans the tokenizer can produce for one match, one annotation combination each. */
  predicate MatchedShape(sp: Span) {
    || (sp.text == [] && sp.annotations == Some(NoAnnotations) && sp.link.None? && sp.image.Some?)
    || (&& sp.text != [] && sp.link.None? && sp.image.None? && sp.annotations.Some?
        && (|| sp.annotations.value == BoldItalic || sp.annotations.value == Bold
            || sp.annotations.value == Italic || sp.annotations.value == InlineCode
            || sp.annotations.value == Strikethrough))
    || (sp.text != [] && sp.annotations == Some(Underline) && sp.link.Some? && sp.image.None?)
  }

  /** The number of alternatives of the combined pattern. */
  const AlternativeCount: nat := 10

  /** Alternative `k` of the combined pattern at position `p`. */
  function Alternative(s: string, p: nat, k: nat): (r: Option<Match>)
    requires p <= |s| && k < AlternativeCount
    ensures r.Some? ==> p + 3 <= r.value.end <= |s|
  {
    match k
    case 0 => ImageAt(s, p)
    case 1 => DelimitedAt(s, p, '*', 3, true, BoldItalic)
    case 2 => DelimitedAt(s, p, '_', 3, true, BoldItalic)
    case 3 => DelimitedAt(s, p, '*', 2, true, Bold)
    case 4 => DelimitedAt(s, p, '_', 2, true, Bold)
    case 5 => DelimitedAt(s, p, '*', 1, true, Italic)
    case 6 => DelimitedAt(s, p, '_', 1, true, Italic)
    case 7 => DelimitedAt(s, p, '`', 1, false, InlineCode)
    case 8 => DelimitedAt(s, p, '~', 2, true, Strikethrough)
    case 9 => LinkAt(s, p)
  }

  /** The first of alternatives `k`, `k + 1`, ... that matches at `p`. */
  function FirstAlternative(s: string, p: nat, k: nat): (r: Option<Match>)
    requires p <= |s| && k <= AlternativeCount
    ensures r.Some? ==> p + 3 <= r.value.end <= |s|
    decreases AlternativeCount - k, s
  {
    if k == AlternativeCount then None
    else if Alternative(s, p, k).Some? then Alternative(s, p, k)
    else FirstAlternative(s, p, k + 1)
  }

  /** The combined pattern at position `p`, its alternatives tried in order. */
  function MatchAt(s: string, p: nat): (r: Option<Match>)
    requires p <= |s|
    ensures r.Some? ==> p + 3 <= r.value.end <= |s|
  {
    FirstAlternative(s, p, 0)
  }

  lemma {:induction false} AlternativeShape(s: string, p: nat, k: nat)
    requires p <= |s| && k < AlternativeCount && Alternative(s, p, k).Some?
    ensures p < |s| && IsSpecial(s[p])
    ensures MatchedShape(Alternative(s, p, k).value.span)
  {
  }

  lemma {:induction false} FirstAlternativeShape(s: string, p: nat, k: nat)
    requires p <= |s| && k <= AlternativeCount && FirstAlternative(s, p, k).Some?
    ensures p < |s| && IsSpecial(s[p])
    ensures MatchedShape(FirstAlternative(s, p, k).value.span)
    decreases AlternativeCount - k
  {
    if Alternative(s, p, k).Some? {
      AlternativeShape(s, p, k);
    } else {
      FirstAlternativeShape(s, p, k + 1);
    }
  }

  /** Every match starts at one of the six special characters and yields one
      of the span shapes of the tokenizer. */
  lemma {:induction false} MatchAtShape(s: string, p: nat)
    requires p <= |s| && MatchAt(s, p).Some?
    ensures p < |s| && IsSpecial(s[p])
    ensures MatchedShape(MatchAt(s, p).value.span)
  {
    FirstAlternativeShape(s, p, 0);
  }

  /** `regex.exec(input)` with `lastIndex == from`: the leftmost match at or after `from`. */
  function NextMatch(s: string, from: nat): (r: Option<(nat, Match)>)
    requires from <= |s|
    ensures r.Some? ==> from <= r.value.0 < |s| && r.value.0 + 3 <= r.value.1.end <= |s|
    decreases |s| - from
  {
    if from == |s| then None
    else
      match MatchAt(s, from)
      case Some(m) => Some((from, m))
      case None => NextMatch(s, from + 1)
  }

  /** No alternative matches at any position of `[lo, hi)`. */
  predicate NoMatchIn(s: string, lo: nat, hi: nat)
    requires hi <= |s| + 1
    decreases hi - lo
  {
    lo >= hi || (MatchAt(s, lo).None? && NoMatchIn(s, lo + 1, hi))
  }

  /** `exec` finds the leftmost match: none starts before the one it returns,
      and when it returns none, none starts anywhere at or after `from`. */
  lemma {:induction false} NextMatchLeftmost(s: string, from: nat)
    requires from <= |s|
    ensures NextMatch(s, from).Some? ==> MatchAt(s, NextMatch(s, from).value.0) == Some(NextMatch(s, from).value.1)
    ensures NextMatch(s, from).Some? ==> NoMatchIn(s, from, NextMatch(s, from).value.0)
    ensures NextMatch(s, from).None? ==> NoMatchIn(s, from, |s|)
    decreases |s| - from
  {
    if from == |s| {
      assert NextMatch(s, from).None?;
    } else if MatchAt(s, from).Some? {
      assert NextMatch(s, from) == Some((from, MatchAt(s, from).value));
    } else {
      assert NextMatch(s, from) == NextMatch(s, from + 1);
      NextMatchLeftmost(s, from + 1);
    }
  }

  /** The scan from `last` on: unmatched gaps become plain spans, each match one span. */
  function ScanFrom(s: string, last: nat): seq<Token>
    requires last <= |s|
    decreases |s| - last
  {
    match NextMatch(s, last)
    case None => if last < |s| then [Token(last, |s|, Plain(s[last..]))] else []
    case Some((p, m)) =>
      (if p > last then [Token(last, p, Plain(s[last..p]))] else [])
      + [Token(p, m.end, m.span)]
      + ScanFrom(s, m.end)
  }

  function Spans(ts: seq<Token>): (r: seq<Span>)
    ensures |r| == |ts|
  {
    if ts == [] then [] else [ts[0].span] + Spans(ts[1..])
  }

  /** What `getRichText(s)` returns. */
  function Tokenize(s: string): seq<Span> {
    Spans(ScanFrom(s, 0))
  }

  lemma {:induction false} SpansAppend(a: seq<Token>, b: seq<Token>)
    ensures Spans(a + b) == Spans(a) + Spans(b)
  {
    if a == [] {
      assert a + b == b;
    } else {
      assert (a + b)[1..] == a[1..] + b;
      SpansAppend(a[1..], b);
    }
  }

  lemma {:induction false} SpansIndex(ts: seq<Token>, i: nat)
    requires i < |ts|
    ensures Spans(ts)[i] == ts[i].span
  {
    if i > 0 {
      SpansIndex(ts[1..], i - 1);
    }
  }

  /** One step of the scan, as the loop body of `getRichText` takes it. */
  lemma {:induction false} ScanStep(s: string, last: nat, p: nat, m: Match)
    requires last <= |s| && NextMatch(s, last) == Some((p, m))
    ensures Spans(ScanFrom(s, last))
         == (if p > last then [Plain(s[last..p])] else []) + [m.span] + Spans(ScanFrom(s, m.end))
  {
    var rest := ScanFrom(s, m.end);
    var t := Token(p, m.end, m.span);
    var gap := if p > last then [Token(last, p, Plain(s[last..p]))] else [];
    assert ScanFrom(s, last) == gap + [t] + rest;
    SpansAppend(gap + [t], rest);
    SpansAppend(gap, [t]);
    assert Spans([t]) == [m.span];
    assert Spans(gap) == if p > last then [Plain(s[last..p])] else [];
  }

  /** The end of the scan: the text after the last match, if any, is one plain span. */
  lemma {:induction false} ScanLast(s: string, last: nat)
    requires last <= |s| && NextMatch(s, last).None?
    ensures Spans(ScanFrom(s, last)) == if last < |s| then [Plain(s[last..])] else []
  {
  }

  /** The loop of `getRichText` keeps its invariant: the spans pushed so far
      followed by the rest of the scan make up the whole scan. */
  lemma {:induction false} ScanAdvance(s: string, total: seq<Span>, done: seq<Span>, last: nat, p: nat, m: Match,
                                       done': seq<Span>, last': nat)
    requires last <= |s| && NextMatch(s, last) == Some((p, m))
    requires done + Spans(ScanFrom(s, last)) == total
    requires done' == done + (if p > last then [Plain(s[last..p])] else []) + [m.span]
    requires last' == m.end
    ensures last' <= |s|
    ensures done' + Spans(ScanFrom(s, last')) == total
  {
    ScanStep(s, last, p, m);
    var gap := if p > last then [Plain(s[last..p])] else [];
    var rest := Spans(ScanFrom(s, m.end));
    AppendAssoc(done, gap + [m.span], rest);
    AppendAssoc(done, gap, [m.span]);
  }

  /** `getRichText`: the `regex.exec` loop with `lastIndex` and `tokens.push`. */
  method GetRichText(input: string) returns (tokens: seq<Span>)
    ensures tokens == Tokenize(input)
  {
    tokens := [];
    var lastIndex := 0;
    var m := NextMatch(input, lastIndex);
    while m.Some?
      invariant lastIndex <= |input|
      invariant m == NextMatch(input, lastIndex)
      invariant tokens + Spans(ScanFrom(input, lastIndex)) == Tokenize(input)
      decreases |input| - lastIndex
    {
      var index := m.value.0;
      var found := m.value.1;
      ghost var (tokens0, lastIndex0) := (tokens, lastIndex);
      if index > lastIndex {
        tokens := tokens + [Plain(input[lastIndex..index])];
      }
      tokens := tokens + [found.span];
      lastIndex := found.end;
      ScanAdvance(input, Tokenize(input), tokens0, lastIndex0, index, found, tokens, lastIndex);
      m := NextMatch(input, lastIndex);
    }
    ScanLast(input, lastIndex);
    if lastIndex < |input| {
      tokens := tokens + [Plain(input[lastIndex..])];
    }
  }

  // ---------------------------------------------------------------------
  // Properties of the scan

  /** A token is either the match the combined pattern makes at its start, or
      a gap: verbatim plain text at no position of which a match starts. */
  predicate TokenOk(s: string, t: Token) {
    && t.start < t.end <= |s|
    && (|| MatchAt(s, t.start) == Some(Match(t.end, t.span))
        || (t.span == Plain(s[t.start..t.end]) && NoMatchIn(s, t.start, t.end)))
  }

  /** The tokens tile `[lo, |s|)` from left to right and each is as `TokenOk` says;
      a gap is the last token or is followed by a match, so the gap runs up
      to the next match and the tiling is the only one. */
  predicate Scanned(s: string, ts: seq<Token>, lo: nat)
    decreases ts
  {
    if ts == [] then lo == |s|
    else
      && ts[0].start == lo && TokenOk(s, ts[0])
      && (|ts| > 1 && MatchAt(s, ts[0].start).None? ==> ts[1].start <= |s| && MatchAt(s, ts[1].start).Some?)
      && Scanned(s, ts[1..], ts[0].end)
  }

  lemma {:induction false} ScannedCons(s: string, t: Token, rest: seq<Token>, lo: nat)
    requires t.start == lo && TokenOk(s, t) && Scanned(s, rest, t.end)
    requires rest != [] && MatchAt(s, t.start).None? ==> rest[0].start <= |s| && MatchAt(s, rest[0].start).Some?
    ensures Scanned(s, [t] + rest, lo)
  {
    assert ([t] + rest)[0] == t && ([t] + rest)[1..] == rest;
  }

  /** The scan covers the rest of the input exactly: matches where `exec` finds
      them, and plain text in between. */
  lemma {:induction false} ScanCorrect(s: string, last: nat)
    requires last <= |s|
    ensures Scanned(s, ScanFrom(s, last), last)
    decreases |s| - last
  {
    NextMatchLeftmost(s, last);
    match NextMatch(s, last)
    case None =>
      if last < |s| {
        var g := Token(last, |s|, Plain(s[last..]));
        assert s[last..] == s[last..|s|];
        ScannedCons(s, g, [], last);
        assert [g] + [] == [g];
      }
    case Some((p, m)) =>
      ScanCorrect(s, m.end);
      var rest := ScanFrom(s, m.end);
      var t := Token(p, m.end, m.span);
      ScannedCons(s, t, rest, p);
      if p > last {
        var g := Token(last, p, Plain(s[last..p]));
        ScannedCons(s, g, [t] + rest, last);
        assert ScanFrom(s, last) == [g] + [t] + rest;
        AppendAssoc([g], [t], rest);
      } else {
        assert ScanFrom(s, last) == [] + [t] + rest;
        assert [] + [t] + rest == [t] + rest;
      }
  }

  lemma {:induction false} ScannedCount(s: string, ts: seq<Token>, lo: nat)
    requires Scanned(s, ts, lo)
    ensures lo <= |s| && |ts| <= |s| - lo
    decreases ts
  {
    if ts != [] {
      ScannedCount(s, ts[1..], ts[0].end);
    }
  }

  lemma {:induction false} ScannedShapes(s: string, ts: seq<Token>, lo: nat)
    requires Scanned(s, ts, lo)
    ensures forall i :: 0 <= i < |ts| ==> TokenShape(ts[i].span)
    decreases ts
  {
    if ts != [] {
      ScannedShapes(s, ts[1..], ts[0].end);
      assert TokenOk(s, ts[0]);
      if MatchAt(s, ts[0].start) == Some(Match(ts[0].end, ts[0].span)) {
        MatchAtShape(s, ts[0].start);
      }
      forall i | 0 <= i < |ts| ensures TokenShape(ts[i].span) {
        if i > 0 { assert ts[i] == ts[1..][i - 1]; }
      }
    }
  }

  /** `getRichText("")` is `[]`. */
  lemma {:induction false} TokenizeEmpty()
    ensures Tokenize([]) == []
  {
  }

  /** No alternative matches the empty string, so there are at most as many spans as characters. */
  lemma {:induction false} TokenizeBound(s: string)
    ensures |Tokenize(s)| <= |s|
  {
    ScanCorrect(s, 0);
    ScannedCount(s, ScanFrom(s, 0), 0);
  }

  /** The shapes `getRichText` can produce: a non-empty plain gap, or one
      match with exactly one annotation combination. */
  predicate TokenShape(sp: Span) {
    (sp == Plain(sp.text) && sp.text != []) || MatchedShape(sp)
  }

  lemma {:induction false} TokenizeShapes(s: string)
    ensures forall i :: 0 <= i < |Tokenize(s)| ==> TokenShape(Tokenize(s)[i])
    ensures Annotated(Tokenize(s))
  {
    ScanCorrect(s, 0);
    var ts := ScanFrom(s, 0);
    ScannedShapes(s, ts, 0);
    forall i | 0 <= i < |ts| ensures TokenShape(Tokenize(s)[i]) {
      SpansIndex(ts, i);
    }
  }

  /** No character at or after `from` is one an alternative starts with. */
  predicate NoSpecialFrom(s: string, from: nat)
    decreases |s| - from
  {
    from >= |s| || (!IsSpecial(s[from]) && NoSpecialFrom(s, from + 1))
  }

  lemma {:induction false} NoSpecialFromAll(s: string, from: nat)
    requires forall i :: from <= i < |s| ==> !IsSpecial(s[i])
    ensures NoSpecialFrom(s, from)
    decreases |s| - from
  {
    if from < |s| {
      NoSpecialFromAll(s, from + 1);
    }
  }

  lemma {:induction false} NoSpecialNoMatch(s: string, from: nat)
    requires from <= |s| && NoSpecialFrom(s, from)
    ensures NextMatch(s, from).None?
    decreases |s| - from
  {
    if from < |s| {
      if MatchAt(s, from).Some? {
        MatchAtShape(s, from);
      }
      NoSpecialNoMatch(s, from + 1);
    }
  }

  /** A line without any character an alternative starts with is one plain span. */
  lemma {:induction false} TokenizeNoSpecial(s: string)
    requires forall i :: 0 <= i < |s| ==> !IsSpecial(s[i])
    ensures Tokenize(s) == if s == [] then [] else [Plain(s)]
  {
    NoSpecialFromAll(s, 0);
    NoSpecialNoMatch(s, 0);
    ScanLast(s, 0);
    assert s[0..] == s;
  }
}
