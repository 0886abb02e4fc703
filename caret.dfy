/**
 * Keeping the caret in place across a re-render. Emphasis markers (`*` and
 * `_`) typed into an editable block vanish once the block is re-rendered
 * with formatting, so the caret offset saved before the edit is remapped
 * (`caretDelta`) before it is put back into the text nodes
 * (`restoreCaretToCorrectPosition`, with `findTextNodeAtChar`).
 */
module Caret {
  import opened Types
  import opened Locator

  /** The characters that form marker runs. */
  predicate IsMarker(c: char) {
    c == '*' || c == '_'
  }

  /** The number of characters of `s` that are not markers: what is left of
      `s` once its markup has vanished. */
  function Visible(s: string): (n: nat)
    ensures n <= |s|
  {
    if s == [] then 0 else Visible(s[..|s| - 1]) + (if IsMarker(s[|s| - 1]) then 0 else 1)
  }

  function Min(a: int, b: int): int {
    if a <= b then a else b
  }

  /** Where the caret saved at `cp` in `before` belongs in `current`: at the
      end of `current` when it was at or past the end of `before`; otherwise
      after as many characters as there were visible characters in front of
      it, but never past the end of `current`. */
  function CorrectedOffset(before: string, current: string, cp: int): (r: int)
    ensures 0 <= r <= |current|
    ensures cp >= |before| ==> r == |current|
  {
    if cp >= |before| then |current|
    else if cp <= 0 then 0
    else Min(Visible(before[..cp]), |current|)
  }

  lemma {:induction false} VisibleSnoc(s: string, n: nat)
    requires n < |s|
    ensures Visible(s[..n + 1]) == Visible(s[..n]) + (if IsMarker(s[n]) then 0 else 1)
  {
    assert s[..n + 1][..n] == s[..n];
  }

  /** `caretDelta`: how far the caret must move. The walk keeps `newCp == ci`,
      the number of visible characters of `before` passed, clipped at the
      length of `current`; each pass over a character or a whole marker run
      moves `bi` forward. */
  method CaretDelta(before: string, current: string, cp: int) returns (delta: int)
    ensures cp + delta == CorrectedOffset(before, current, cp)
  {
    if cp >= |before| {
      return |current| - cp;
    }
    var bi, ci, newCp := 0, 0, 0;
    while bi < cp && bi < |before|
      invariant 0 <= bi <= |before| && (bi == 0 || bi <= cp)
      invariant newCp == ci && ci <= |current|
      invariant ci == Min(Visible(before[..bi]), |current|)
      decreases |before| - bi
    {
      var bch := before[bi];
      if IsMarker(bch) {
        var bStart := bi;
        while bi < |before| && IsMarker(before[bi])
          invariant bStart <= bi <= |before|
          invariant bi == bStart ==> bi < |before| && IsMarker(before[bi])
          invariant forall k :: bStart <= k <= bi ==> Visible(before[..k]) == Visible(before[..bStart])
          decreases |before| - bi
        {
          VisibleSnoc(before, bi);
          bi := bi + 1;
        }
        if cp <= bi {
          // The caret was inside the marker run, or at its end: snap it.
          return ci - cp;
        }
        continue;
      }
      VisibleSnoc(before, bi);
      if ci < |current| && bch == current[ci] {
        bi, ci, newCp := bi + 1, ci + 1, newCp + 1;
      } else {
        // A substituted character: move on in both texts while `current` lasts.
        bi := bi + 1;
        if ci < |current| {
          ci, newCp := ci + 1, newCp + 1;
        }
      }
    }
    return newCp - cp;
  }

  /** Without markers, every character counts. */
  lemma {:induction false} VisibleNoMarkers(s: string)
    requires forall i :: 0 <= i < |s| ==> !IsMarker(s[i])
    ensures Visible(s) == |s|
  {
    if s != [] {
      VisibleNoMarkers(s[..|s| - 1]);
    }
  }

  /** Markers only: nothing counts. */
  lemma {:induction false} VisibleOnlyMarkers(s: string, t: string)
    requires forall i :: 0 <= i < |t| ==> IsMarker(t[i])
    ensures Visible(s + t) == Visible(s)
    decreases |t|
  {
    if t != [] {
      var u := t[..|t| - 1];
      assert (s + t)[..|s + t| - 1] == s + u;
      VisibleOnlyMarkers(s, u);
    } else {
      assert s + t == s;
    }
  }

  /** Without markers in front of the caret, the caret keeps its offset, cut
      back to the end of `current` when `current` is shorter: the delta is
      `min(cp, |current|) - cp`, which is 0 when `current` is long enough. */
  lemma {:induction false} NoMarkerKeepsOffset(before: string, current: string, cp: int)
    requires 0 <= cp < |before|
    requires forall i :: 0 <= i < cp ==> !IsMarker(before[i])
    ensures CorrectedOffset(before, current, cp) == Min(cp, |current|)
    ensures |current| >= cp ==> CorrectedOffset(before, current, cp) == cp
  {
    VisibleNoMarkers(before[..cp]);
  }

  /** A caret anywhere inside a marker run, or at its end, lands where a caret
      at the start of the run lands: the run vanishes as a whole. */
  lemma {:induction false} MarkerRunSnaps(before: string, current: string, start: int, cp: int)
    requires 0 <= start <= cp < |before|
    requires forall i :: start <= i < cp ==> IsMarker(before[i])
    ensures CorrectedOffset(before, current, cp) == CorrectedOffset(before, current, start)
  {
    var t := before[start..cp];
    assert before[..cp] == before[..start] + t;
    VisibleOnlyMarkers(before[..start], t);
  }

  /** The number of markers in `s`. */
  function MarkerCount(s: string): (n: nat)
    ensures n <= |s|
  {
    if s == [] then 0 else MarkerCount(s[..|s| - 1]) + (if IsMarker(s[|s| - 1]) then 1 else 0)
  }

  /** Each marker in front of the caret takes one character off its
      remapped offset: what is visible is everything but the markers. */
  lemma {:induction false} VisibleCount(s: string)
    ensures Visible(s) == |s| - MarkerCount(s)
  {
    if s != [] {
      VisibleCount(s[..|s| - 1]);
    }
  }

  /** Every marker in front of the caret moves it one character to the left,
      as long as `current` is long enough. */
  lemma {:induction false} MarkersShiftLeft(s: string, m: string)
    requires forall i :: 0 <= i < |m| ==> IsMarker(m[i])
    requires forall i :: 0 <= i < |s| ==> !IsMarker(s[i])
    ensures Visible(s + m) == |s + m| - |m|
  {
    VisibleOnlyMarkers(s, m);
    VisibleNoMarkers(s);
  }

  /** Carets keep their order: a caret further right in `before` never lands
      to the left of one further left. */
  lemma {:induction false} CorrectedMonotone(before: string, current: string, a: int, b: int)
    requires a <= b
    ensures CorrectedOffset(before, current, a) <= CorrectedOffset(before, current, b)
  {
    if 0 < a && b < |before| {
      VisiblePrefixMonotone(before, a, b);
    }
  }

  lemma {:induction false} VisiblePrefixMonotone(s: string, a: nat, b: nat)
    requires a <= b <= |s|
    ensures Visible(s[..a]) <= Visible(s[..b])
    decreases b - a
  {
    if a < b {
      VisibleSnoc(s, b - 1);
      VisiblePrefixMonotone(s, a, b - 1);
    }
  }

  // ---------------------------------------------------------------------
  // Putting the caret back

  /** Whether the text changed so that the caret is remapped: there was a
      saved text, both texts are non-empty, and they differ. */
  predicate Remaps(savedText: Option<string>, currentText: Option<string>) {
    && savedText.Some? && currentText.Some?
    && currentText.value != [] && savedText.value != []
    && currentText.value != savedText.value
  }

  /** The offset the caret is put back at. */
  function RestoredOffset(saved: int, savedText: Option<string>, currentText: Option<string>): (r: int)
    ensures !Remaps(savedText, currentText) ==> r == saved
    ensures Remaps(savedText, currentText) ==> 0 <= r <= |currentText.value|
  {
    if Remaps(savedText, currentText) then CorrectedOffset(savedText.value, currentText.value, saved)
    else saved
  }

  /** The offset arithmetic of `restoreCaretToCorrectPosition`. */
  method RestoreOffset(saved: int, savedText: Option<string>, currentText: Option<string>) returns (offset: int)
    ensures offset == RestoredOffset(saved, savedText, currentText)
  {
    offset := saved;
    if savedText.Some? {
      var prevText := savedText.value;
      if currentText.Some? && currentText.value != [] && prevText != [] && currentText.value != prevText {
        var delta := CaretDelta(prevText, currentText.value, offset);
        offset := offset + delta;
      }
    }
  }

  /** `restoreCaretToCorrectPosition`: the text node and offset where the
      caret is placed, or none when no text node holds the offset (and the
      selection is left alone). */
  method RestoreCaretToCorrectPosition(saved: int, savedText: Option<string>, currentText: Option<string>, root: Node)
    returns (caret: Option<Hit>)
    ensures caret == Locate(Leaves(root, []), RestoredOffset(saved, savedText, currentText), 0)
  {
    var offset := RestoreOffset(saved, savedText, currentText);
    var node, charOffset := FindTextNodeAtChar(root, offset);
    if node.Some? {
      caret := Some(Hit(node.value, charOffset));
    } else {
      caret := None;
    }
  }

  /** When the element's text is the current text and has a text node, a
      remapped caret is always placed, since the remapped offset lies
      within the current text. */
  lemma {:induction false} RemappedCaretIsPlaced(saved: int, savedText: Option<string>, currentText: Option<string>, root: Node)
    requires Remaps(savedText, currentText)
    requires Leaves(root, []) != [] && TextLength(Leaves(root, [])) == |currentText.value|
    ensures Locate(Leaves(root, []), RestoredOffset(saved, savedText, currentText), 0).Some?
  {
    LocateFound(Leaves(root, []), RestoredOffset(saved, savedText, currentText), 0);
  }

  /** Without a remap, the caret is placed exactly when the saved offset lies
      within the element's text and there is a text node. */
  lemma {:induction false} UnmappedCaret(saved: int, savedText: Option<string>, currentText: Option<string>, root: Node)
    requires !Remaps(savedText, currentText)
    ensures Locate(Leaves(root, []), RestoredOffset(saved, savedText, currentText), 0).Some?
        <==> Leaves(root, []) != [] && 0 <= saved <= TextLength(Leaves(root, []))
  {
    LocateFound(Leaves(root, []), saved, 0);
  }
}
