/**
 * Character classes and string operations of JavaScript that the
 * markdown engine relies on, over `string` (`seq<char>`).
 */
module Strings {

  /** `\s` of a JavaScript regular expression; `String.prototype.trim`
      removes exactly the same characters (WhiteSpace and LineTerminator). */
  predicate IsSpace(c: char) {
    || c == '\t' || c == '\n' || c == '\U{B}' || c == '\U{C}' || c == '\r' || c == ' '
    || c == '\U{A0}' || c == '\U{1680}' || ('\U{2000}' <= c <= '\U{200A}')
    || c == '\U{2028}' || c == '\U{2029}' || c == '\U{202F}' || c == '\U{205F}'
    || c == '\U{3000}' || c == '\U{FEFF}'
  }

  /** The characters a regular-expression `.` does not match. */
  predicate IsLineTerminator(c: char) {
    c == '\n' || c == '\r' || c == '\U{2028}' || c == '\U{2029}'
  }

  /** `\d`: an ASCII decimal digit. */
  predicate IsDigit(c: char) {
    '0' <= c <= '9'
  }

  predicate AllSpace(s: string) {
    forall i :: 0 <= i < |s| ==> IsSpace(s[i])
  }

  predicate NoLineTerminator(s: string) {
    forall i :: 0 <= i < |s| ==> !IsLineTerminator(s[i])
  }

  predicate AllChar(s: string, c: char) {
    forall i :: 0 <= i < |s| ==> s[i] == c
  }

  /** The first index at or after `from` that is not whitespace, or `|s|`. */
  function SpaceEnd(s: string, from: nat): (k: nat)
    requires from <= |s|
    ensures from <= k <= |s|
    ensures k < |s| ==> !IsSpace(s[k])
    decreases |s| - from
  {
    if from == |s| || !IsSpace(s[from]) then from else SpaceEnd(s, from + 1)
  }

  lemma {:induction false} SpaceEndSpaces(s: string, from: nat)
    requires from <= |s|
    ensures forall i :: from <= i < SpaceEnd(s, from) ==> IsSpace(s[i])
    decreases |s| - from
  {
    if from < |s| && IsSpace(s[from]) {
      SpaceEndSpaces(s, from + 1);
    }
  }

  /** The least `k <= upto` such that `s[k..upto]` is all whitespace. */
  function SpaceStart(s: string, upto: nat): (k: nat)
    requires upto <= |s|
    ensures k <= upto
    ensures 0 < k ==> !IsSpace(s[k - 1])
  {
    if upto == 0 || !IsSpace(s[upto - 1]) then upto else SpaceStart(s, upto - 1)
  }

  lemma {:induction false} SpaceStartSpaces(s: string, upto: nat)
    requires upto <= |s|
    ensures forall i :: SpaceStart(s, upto) <= i < upto ==> IsSpace(s[i])
  {
    if upto > 0 && IsSpace(s[upto - 1]) {
      SpaceStartSpaces(s, upto - 1);
    }
  }

  /** The first index at or after `from` that is not a decimal digit, or `|s|`. */
  function DigitEnd(s: string, from: nat): (k: nat)
    requires from <= |s|
    ensures from <= k <= |s|
    ensures k < |s| ==> !IsDigit(s[k])
    decreases |s| - from
  {
    if from == |s| || !IsDigit(s[from]) then from else DigitEnd(s, from + 1)
  }

  lemma {:induction false} DigitEndDigits(s: string, from: nat)
    requires from <= |s|
    ensures forall i :: from <= i < DigitEnd(s, from) ==> IsDigit(s[i])
    decreases |s| - from
  {
    if from < |s| && IsDigit(s[from]) {
      DigitEndDigits(s, from + 1);
    }
  }

  /** No line terminator at or after `from`: `.*$` matches from there to the end. */
  predicate NoTerminatorFrom(s: string, from: nat)
    requires from <= |s|
    decreases |s| - from
  {
    from == |s| || (!IsLineTerminator(s[from]) && NoTerminatorFrom(s, from + 1))
  }

  lemma {:induction false} NoTerminatorFromLater(s: string, a: nat, b: nat)
    requires a <= b <= |s| && NoTerminatorFrom(s, a)
    ensures NoTerminatorFrom(s, b)
    decreases b - a
  {
    if a < b {
      NoTerminatorFromLater(s, a + 1, b);
    }
  }

  lemma {:induction false} NoTerminatorFromChars(s: string, from: nat)
    requires from <= |s| && NoTerminatorFrom(s, from)
    ensures forall i :: from <= i < |s| ==> !IsLineTerminator(s[i])
    decreases |s| - from
  {
    if from < |s| {
      NoTerminatorFromChars(s, from + 1);
    }
  }

  /** Length of the longest prefix of `s` made of whitespace. */
  function LeadingSpace(s: string): (n: nat)
    ensures n <= |s|
    ensures AllSpace(s[..n])
    ensures n < |s| ==> !IsSpace(s[n])
  {
    SpaceEndSpaces(s, 0);
    SpaceEnd(s, 0)
  }

  /** Length of the longest suffix of `s` made of whitespace. */
  function TrailingSpace(s: string): (n: nat)
    ensures n <= |s|
    ensures AllSpace(s[|s| - n..])
    ensures n < |s| ==> !IsSpace(s[|s| - n - 1])
  {
    SpaceStartSpaces(s, |s|);
    |s| - SpaceStart(s, |s|)
  }

  /** Length of the longest prefix of `s` made of the character `c`. */
  function LeadingRun(s: string, c: char): (n: nat)
    ensures n <= |s|
    ensures AllChar(s[..n], c)
    ensures n < |s| ==> s[n] != c
  {
    if s == [] || s[0] != c then 0
    else
      var n := 1 + LeadingRun(s[1..], c);
      assert s[..n] == [s[0]] + s[1..][..n - 1];
      n
  }

  /** `String.prototype.trim`. */
  function Trim(s: string): (t: string)
    ensures |t| <= |s|
    ensures t != [] ==> !IsSpace(t[0]) && !IsSpace(t[|t| - 1])
    ensures t == [] <==> AllSpace(s)
  {
    var a := LeadingSpace(s);
    if a == |s| then
      assert s[..a] == s;
      []
    else
      var rest := s[a..];
      var b := TrailingSpace(rest);
      assert !IsSpace(rest[0]);
      assert b < |rest|;
      rest[..|rest| - b]
  }

  /** `s.startsWith(p)`. */
  predicate StartsWith(s: string, p: string) {
    |p| <= |s| && s[..|p|] == p
  }

  /** `s.endsWith(p)`. */
  predicate EndsWith(s: string, p: string) {
    |p| <= |s| && s[|s| - |p|..] == p
  }

  /** `s.repeat(n)`. */
  function Repeat(s: string, n: nat): (r: string)
    ensures |r| == n * |s|
  {
    if n == 0 then [] else s + Repeat(s, n - 1)
  }

  /** `parts.join(sep)`. */
  function Join(parts: seq<string>, sep: string): string {
    if parts == [] then []
    else if |parts| == 1 then parts[0]
    else parts[0] + sep + Join(parts[1..], sep)
  }

  /** The concatenation `parts.join('')`. */
  function Concat(parts: seq<string>): string {
    if parts == [] then [] else parts[0] + Concat(parts[1..])
  }

  /** Index of the first occurrence of `c` in `s` at or after `from`, or `|s|`. */
  function FindFrom(s: string, from: nat, c: char): (k: nat)
    requires from <= |s|
    ensures from <= k <= |s|
    ensures k < |s| ==> s[k] == c
    ensures forall i :: from <= i < k ==> s[i] != c
    decreases |s| - from
  {
    if from == |s| || s[from] == c then from else FindFrom(s, from + 1, c)
  }

  /** `s.split(sep)` for a one-character separator. */
  function Split(s: string, sep: char): (parts: seq<string>)
    ensures |parts| >= 1
    ensures forall k :: 0 <= k < |parts| ==> sep !in parts[k]
    decreases |s|
  {
    var k := FindFrom(s, 0, sep);
    if k == |s| then [s]
    else [s[..k]] + Split(s[k + 1..], sep)
  }

  /** The decimal rendering of a natural number (`String(n)`). */
  function NatToString(n: nat): (s: string)
    ensures |s| >= 1
    ensures forall i :: 0 <= i < |s| ==> IsDigit(s[i])
  {
    var d := [('0' as int + n % 10) as char];
    if n < 10 then d else NatToString(n / 10) + d
  }

  /** The value of a non-empty run of decimal digits (`parseInt(s, 10)`). */
  function DigitsValue(s: string): nat
    requires forall i :: 0 <= i < |s| ==> IsDigit(s[i])
  {
    if s == [] then 0
    else
      assert IsDigit(s[|s| - 1]);
      DigitsValue(s[..|s| - 1]) * 10 + (s[|s| - 1] as int - '0' as int)
  }

  /** Length of the longest prefix of `s` made of decimal digits. */
  function LeadingDigits(s: string): (n: nat)
    ensures n <= |s|
    ensures forall i :: 0 <= i < n ==> IsDigit(s[i])
    ensures n < |s| ==> !IsDigit(s[n])
  {
    if s == [] || !IsDigit(s[0]) then 0 else 1 + LeadingDigits(s[1..])
  }

  /** The number of occurrences of `c` in `s`. */
  function Count(s: string, c: char): (n: nat)
    ensures n <= |s|
    ensures n == 0 <==> c !in s
  {
    if s == [] then 0 else (if s[0] == c then 1 else 0) + Count(s[1..], c)
  }

  /** Concatenation of sequences is associative. */
  lemma {:induction false} AppendAssoc<T>(a: seq<T>, b: seq<T>, c: seq<T>)
    ensures a + b + c == a + (b + c)
  {
  }

  lemma {:induction false} JoinCons(a: string, rest: seq<string>, sep: string)
    requires rest != []
    ensures Join([a] + rest, sep) == a + sep + Join(rest, sep)
  {
    assert ([a] + rest)[1..] == rest;
  }

  /** Joining the pieces of `s.split(c)` with `c` gives `s` back. */
  lemma {:induction false} SplitJoin(s: string, c: char)
    ensures Join(Split(s, c), [c]) == s
    decreases |s|
  {
    var k := FindFrom(s, 0, c);
    if k < |s| {
      var rest := s[k + 1..];
      SplitJoin(rest, c);
      JoinCons(s[..k], Split(rest, c), [c]);
      assert s == s[..k] + [c] + rest;
    }
  }

  /** A string without the separator splits into itself alone. */
  lemma {:induction false} SplitNone(s: string, c: char)
    requires c !in s
    ensures Split(s, c) == [s]
  {
  }

  /** Splitting at a separator splits each side on its own: the pieces of
      `a + [c] + b` are the pieces of `a` followed by the pieces of `b`. */
  lemma {:induction false} SplitAppend(a: string, b: string, c: char)
    ensures Split(a + [c] + b, c) == Split(a, c) + Split(b, c)
    decreases |a|
  {
    var s := a + [c] + b;
    var k := FindFrom(a, 0, c);
    FindFromAppend(a, b, c);
    if k < |a| {
      assert s[..k] == a[..k];
      assert s[k + 1..] == a[k + 1..] + [c] + b;
      SplitAppend(a[k + 1..], b, c);
    } else {
      assert s[..k] == a && s[k + 1..] == b;
    }
  }

  /** The first separator of `a + [c] + b` is the first one of `a`, or the one after `a`. */
  lemma {:induction false} FindFromAppend(a: string, b: string, c: char)
    ensures FindFrom(a + [c] + b, 0, c) == FindFrom(a, 0, c)
  {
    var s := a + [c] + b;
    var k := FindFrom(a, 0, c);
    assert forall i :: 0 <= i < |a| ==> s[i] == a[i];
    assert s[|a|] == c;
    assert s[k] == c;
  }

  /** `SpaceEnd` stops at the first character from `from` on that is not whitespace. */
  lemma {:induction false} SpaceEndAt(s: string, from: nat, k: nat)
    requires from <= k <= |s|
    requires forall i :: from <= i < k ==> IsSpace(s[i])
    requires k < |s| ==> !IsSpace(s[k])
    ensures SpaceEnd(s, from) == k
  {
    SpaceEndSpaces(s, from);
  }

  /** A suffix without line terminators passes `NoTerminatorFrom`. */
  lemma {:induction false} NoTerminatorOfChars(s: string, from: nat)
    requires from <= |s|
    requires forall i :: from <= i < |s| ==> !IsLineTerminator(s[i])
    ensures NoTerminatorFrom(s, from)
    decreases |s| - from
  {
    if from < |s| {
      NoTerminatorOfChars(s, from + 1);
    }
  }

  /** Trimming a string with whitespace only at its end removes exactly that whitespace. */
  lemma {:induction false} TrimPadded(x: string, ws: string)
    requires x != [] && !IsSpace(x[0]) && !IsSpace(x[|x| - 1]) && AllSpace(ws)
    ensures Trim(x + ws) == x
  {
    var s := x + ws;
    assert s[0] == x[0];
    assert s[0..] == s;
    var n := TrailingSpace(s);
    assert forall i :: 0 <= i < |ws| ==> s[|x| + i] == ws[i];
    assert s[|x| - 1] == x[|x| - 1];
    assert s[..|s| - n] == x;
  }

  /** Whitespace in front of a string that starts with a non-space is trimmed away. */
  lemma {:induction false} TrimSpacedPrefix(ws: string, x: string)
    requires AllSpace(ws) && x != [] && !IsSpace(x[0])
    ensures Trim(ws + x) == Trim(x)
  {
    var s := ws + x;
    var a := LeadingSpace(s);
    assert forall i :: 0 <= i < |ws| ==> s[i] == ws[i];
    assert s[|ws|] == x[0];
    assert s[a..] == x;
    assert x[0..] == x;
  }

  /** `parseInt(String(n), 10) == n`. */
  lemma {:induction false} DigitsOfNat(n: nat)
    ensures DigitsValue(NatToString(n)) == n
  {
    var d := [('0' as int + n % 10) as char];
    if n >= 10 {
      var x := NatToString(n / 10);
      DigitsOfNat(n / 10);
      assert (x + d)[..|x + d| - 1] == x;
    }
  }
}
