/**
 * `removedFromStartLength`: a guess at how many characters an edit removed
 * from the start of a text, from where the first character of the new text
 * first occurs in the old one.
 */
module StartRemoval {
  import opened Strings

  /** The value `removedFromStartLength(prev, curr)` returns: one less than
      the index of the first occurrence of `curr[0]` in `prev`, and 0 when
      `curr` is empty (`curr[0]` is `undefined`) or `curr[0]` does not occur. */
  function StartRemoved(prev: string, curr: string): (r: int)
    ensures r == 0 || -1 <= r <= |prev| - 2
  {
    if curr == [] then 0
    else
      var i := FindFrom(prev, 0, curr[0]);
      if i < |prev| then i - 1 else 0
  }

  /** The `for` loop with its early return. */
  method RemovedFromStartLength(prev: string, curr: string) returns (r: int)
    ensures r == StartRemoved(prev, curr)
    ensures curr != [] && curr[0] in prev ==>
      0 <= r + 1 < |prev| && prev[r + 1] == curr[0] && forall k :: 0 <= k <= r ==> prev[k] != curr[0]
    ensures curr == [] || curr[0] !in prev ==> r == 0
  {
    var i := 0;
    while i < |prev|
      invariant 0 <= i <= |prev|
      invariant curr != [] ==> FindFrom(prev, 0, curr[0]) >= i
    {
      if curr != [] && prev[i] == curr[0] {
        return i - 1;
      }
      i := i + 1;
    }
    return 0;
  }

  /** When the edit removed `removed` from the front and the new text's first
      character does not occur in what was removed, the result is one less
      than the number of characters removed. */
  lemma {:induction false} RemovedPrefix(removed: string, curr: string)
    requires curr != [] && curr[0] !in removed
    ensures StartRemoved(removed + curr, curr) == |removed| - 1
  {
    var prev := removed + curr;
    assert prev[|removed|] == curr[0];
    assert forall k :: 0 <= k < |removed| ==> prev[k] == removed[k];
  }

  /** An unchanged first character gives -1, not 0, and one removed
      character gives 0, the same as no removal at all. */
  lemma {:induction false} OneRemovedReadsAsNone()
    ensures StartRemoved("abc", "abc") == -1
    ensures StartRemoved("abc", "bc") == 0
    ensures StartRemoved("abc", "xyz") == 0
  {
    assert "abc"[0] == 'a' && "abc"[1] == 'b';
  }

  /** The count the name promises: the index of the first occurrence of
      `curr[0]` in `prev`, that is the number of characters in front of it;
      0 when `curr` is empty or `curr[0]` does not occur. */
  function RemovedCount(prev: string, curr: string): (r: nat)
    ensures r <= |prev|
    ensures curr != [] && curr[0] in prev ==> r < |prev| && prev[r] == curr[0] && forall k :: 0 <= k < r ==> prev[k] != curr[0]
    ensures curr == [] || curr[0] !in prev ==> r == 0
  {
    if curr == [] then 0
    else
      var i := FindFrom(prev, 0, curr[0]);
      if i < |prev| then i else 0
  }

  /** With the count, removing `removed` from the front gives `|removed|`,
      and an unchanged text gives 0. */
  lemma {:induction false} RemovedCountPrefix(removed: string, curr: string)
    requires curr != [] && curr[0] !in removed
    ensures RemovedCount(removed + curr, curr) == |removed|
    ensures RemovedCount(curr, curr) == 0
  {
    var prev := removed + curr;
    assert prev[|removed|] == curr[0];
    assert forall k :: 0 <= k < |removed| ==> prev[k] == removed[k];
    assert curr[0] in curr;
  }
}
