/** Optional values, as Python's `None` / value. */
module Wrappers {
  datatype Option<+T> = None | Some(value: T)

  /** Appending to a sequence in two steps or in one gives the same. */
  lemma AppendAssociates<T>(a: seq<T>, b: seq<T>, c: seq<T>)
    ensures a + b + c == a + (b + c)
  {
  }
}

/**
 * The pieces of Python's `str` behaviour that the voice-diary core relies on:
 * character classes of `re` (`\s`, `\w`, `\d`), `str.lower`, `str.strip`,
 * `str.startswith`, `in`, `str.split(sep)` and `sep.join`.
 */
module Text {
  import opened Wrappers

  /** The characters `str.isspace()` and the regex class `\s` accept. */
  predicate IsSpace(c: char) {
    || ('\t' <= c <= '\r') || ('\U{1C}' <= c <= '\U{1F}') || c == ' '
    || c == '\U{85}' || c == '\U{A0}' || c == '\U{1680}'
    || ('\U{2000}' <= c <= '\U{200A}') || c == '\U{2028}' || c == '\U{2029}'
    || c == '\U{202F}' || c == '\U{205F}' || c == '\U{3000}'
  }

  /** The decimal digits matched by `\d` (ASCII only in this model). */
  predicate IsDigit(c: char) { '0' <= c <= '9' }

  predicate IsUpper(c: char) { 'A' <= c <= 'Z' }

  /** The word characters matched by `\w` (ASCII letters, digits and `_` in this model). */
  predicate IsWordChar(c: char) {
    ('a' <= c <= 'z') || IsUpper(c) || IsDigit(c) || c == '_'
  }

  function LowerChar(c: char): (r: char)
    ensures !IsUpper(r)
    ensures IsWordChar(r) == IsWordChar(c) && IsSpace(r) == IsSpace(c)
    ensures !IsUpper(c) ==> r == c
  {
    if IsUpper(c) then (c as int + 32) as char else c
  }

  /** `s.lower()`. */
  function Lower(s: string): (r: string)
    ensures |r| == |s|
    ensures forall i :: 0 <= i < |s| ==> r[i] == LowerChar(s[i])
  {
    seq(|s|, i requires 0 <= i < |s| => LowerChar(s[i]))
  }

  predicate IsLower(s: string) {
    forall i :: 0 <= i < |s| ==> !IsUpper(s[i])
  }

  lemma LowerOfLower(s: string)
    requires IsLower(s)
    ensures Lower(s) == s
  {
  }

  /** No leading and no trailing whitespace: what `strip()` leaves. */
  predicate IsStripped(s: string) {
    s == [] || (!IsSpace(s[0]) && !IsSpace(s[|s| - 1]))
  }

  predicate AllSpace(s: string) {
    forall i :: 0 <= i < |s| ==> IsSpace(s[i])
  }

  /** The first index at or after `i` that holds no whitespace (or `|s|`). */
  function SpanStart(s: string, i: nat): (k: nat)
    requires i <= |s|
    ensures i <= k <= |s| && (k == |s| || !IsSpace(s[k]))
    ensures forall j :: i <= j < k ==> IsSpace(s[j])
    decreases |s| - i
  {
    if i < |s| && IsSpace(s[i]) then SpanStart(s, i + 1) else i
  }

  /** The end of `s[i..e]` once its whitespace suffix is dropped. */
  function SpanEnd(s: string, i: nat, e: nat): (k: nat)
    requires i <= e <= |s|
    ensures i <= k <= e && (k == i || !IsSpace(s[k - 1]))
    ensures forall j :: k <= j < e ==> IsSpace(s[j])
    decreases e
  {
    if i < e && IsSpace(s[e - 1]) then SpanEnd(s, i, e - 1) else e
  }

  /** `s.strip()`: drops the whitespace prefix and suffix and nothing else. */
  function Strip(s: string): (r: string)
    ensures |r| <= |s|
  {
    var a := SpanStart(s, 0);
    s[a..SpanEnd(s, a, |s|)]
  }

  lemma StripStripped(s: string)
    ensures IsStripped(Strip(s))
  {
    var a := SpanStart(s, 0);
    var b := SpanEnd(s, a, |s|);
    if a < b {
      assert Strip(s)[0] == s[a];
      assert Strip(s)[b - a - 1] == s[b - 1];
    }
  }

  /** `strip()` only removes characters. */
  lemma StripKeeps(s: string, c: char)
    ensures c in Strip(s) ==> c in s
  {
    var a := SpanStart(s, 0);
    var b := SpanEnd(s, a, |s|);
    if c in Strip(s) {
      var k :| 0 <= k < b - a && Strip(s)[k] == c;
      assert s[a + k] == c;
    }
  }

  /** `strip()` returns an empty string exactly for all-whitespace input,
      and leaves an already stripped string alone. */
  lemma StripFacts(s: string)
    ensures Strip(s) == [] <==> AllSpace(s)
    ensures IsStripped(s) ==> Strip(s) == s
  {
    var a := SpanStart(s, 0);
    var b := SpanEnd(s, a, |s|);
    if Strip(s) == [] {
      assert a == b;
      forall j | 0 <= j < |s| ensures IsSpace(s[j]) {
        if j >= b {
          assert IsSpace(s[j]);
        }
      }
    }
    if AllSpace(s) && s != [] {
      assert a == |s|;
    }
    if IsStripped(s) && s != [] {
      assert a == 0;
      assert b == |s|;
      assert s[0..|s|] == s;
    }
  }

  /** Stripping a stripped string behind one space gives the string back. */
  lemma StripAfterSpace(x: string)
    requires x != [] && IsStripped(x)
    ensures Strip(" " + x) == x
  {
    var s := " " + x;
    assert s[1..] == x;
    assert SpanStart(s, 1) == 1;
    assert SpanStart(s, 0) == 1;
    assert SpanEnd(s, 1, |s|) == |s|;
  }

  /** `s` contains `p` starting at index `i`. */
  predicate OccursAt(s: string, p: string, i: int) {
    0 <= i && i + |p| <= |s| && s[i..i + |p|] == p
  }

  /** `s.startswith(p)`. */
  predicate StartsWith(s: string, p: string) {
    OccursAt(s, p, 0)
  }

  /** The first index at or after `k` where `p` occurs in `s`, as `s.find(p, k)`. */
  function IndexFrom(s: string, p: string, k: nat): (r: Option<nat>)
    ensures r.Some? ==> k <= r.value && OccursAt(s, p, r.value)
    ensures forall j :: k <= j && (r.None? || j < r.value) ==> !OccursAt(s, p, j)
    decreases |s| - k
  {
    if k + |p| > |s| then None
    else if s[k..k + |p|] == p then Some(k)
    else IndexFrom(s, p, k + 1)
  }

  function IndexOf(s: string, p: string): (r: Option<nat>)
    ensures r.Some? ==> OccursAt(s, p, r.value)
    ensures forall j :: 0 <= j && (r.None? || j < r.value) ==> !OccursAt(s, p, j)
  {
    IndexFrom(s, p, 0)
  }

  /** Python's `p in s`. */
  predicate Contains(s: string, p: string) {
    IndexOf(s, p).Some?
  }

  /** A string without some character of `p` cannot contain `p`. */
  lemma AbsentCharNotContained(s: string, p: string, k: nat)
    requires k < |p| && p[k] !in s
    ensures !Contains(s, p)
  {
    forall i | 0 <= i && i + |p| <= |s| ensures !OccursAt(s, p, i) {
      assert s[i..i + |p|][k] == s[i + k];
      assert s[i + k] in s;
    }
  }

  /** A character of `s` is an occurrence of the one-character string. */
  lemma PresentCharContained(s: string, c: char)
    ensures c in s ==> Contains(s, [c])
  {
    if c in s {
      var i :| 0 <= i < |s| && s[i] == c;
      assert s[i..i + 1] == [c];
      assert OccursAt(s, [c], i);
    }
  }

  /** One mismatching character rules an occurrence out. */
  lemma MismatchAt(s: string, p: string, i: nat, d: nat)
    requires d < |p| && i + d < |s| && s[i + d] != p[d]
    ensures !OccursAt(s, p, i)
  {
    if i + |p| <= |s| {
      assert s[i..i + |p|][d] == s[i + d];
    }
  }

  /** An occurrence inside a slice is an occurrence in the slice. */
  lemma OccursAtSlice(s: string, p: string, lo: nat, hi: nat, i: nat)
    requires lo <= i && i + |p| <= hi <= |s|
    ensures OccursAt(s, p, i) == OccursAt(s[lo..hi], p, i - lo)
  {
    var a, b := s[lo..hi][i - lo..i - lo + |p|], s[i..i + |p|];
    forall d | 0 <= d < |p| ensures a[d] == b[d] {
      assert s[lo..hi][i - lo + d] == s[i + d];
    }
    assert a == b;
  }

  lemma ContainsIff(s: string, p: string)
    ensures Contains(s, p) <==> exists i :: OccursAt(s, p, i)
  {
  }

  /** An occurrence inside a slice is an occurrence in the whole string. */
  lemma OccursInSlice(s: string, p: string, lo: int, hi: int, i: int)
    requires 0 <= lo <= hi <= |s|
    ensures OccursAt(s[lo..hi], p, i) ==> OccursAt(s, p, lo + i)
  {
    if OccursAt(s[lo..hi], p, i) {
      forall k | 0 <= k < |p| ensures s[lo + i..lo + i + |p|][k] == p[k] {
        assert s[lo..hi][i..i + |p|][k] == p[k];
      }
    }
  }

  lemma SliceOfAppend(x: string, y: string, i: int, j: int)
    requires 0 <= i <= j <= |x|
    ensures (x + y)[i..j] == x[i..j]
  {
  }

  /** A string is its text before an occurrence, the occurrence, and the rest. */
  lemma Recompose(s: string, p: string, i: nat)
    requires OccursAt(s, p, i)
    ensures s == s[..i] + p + s[i + |p|..]
  {
    assert s == s[..i] + s[i..i + |p|] + s[i + |p|..];
  }

  /** `sep.join(parts)`. */
  function Join(parts: seq<string>, sep: string): string {
    if parts == [] then ""
    else if |parts| == 1 then parts[0]
    else parts[0] + sep + Join(parts[1..], sep)
  }

  /** `s.split(sep)` for a non-empty separator: cut at every leftmost,
      non-overlapping occurrence of `sep`. */
  function Split(s: string, sep: string): (r: seq<string>)
    requires sep != []
    ensures |r| >= 1
    decreases |s|
  {
    match IndexOf(s, sep)
    case None => [s]
    case Some(i) => [s[..i]] + Split(s[i + |sep|..], sep)
  }

  /** Joining the pieces of a split gives the string back, and no piece
      contains the separator. */
  lemma {:induction false} SplitPieces(s: string, sep: string)
    requires sep != []
    ensures Join(Split(s, sep), sep) == s
    ensures forall k :: 0 <= k < |Split(s, sep)| ==> !Contains(Split(s, sep)[k], sep)
    decreases |s|
  {
    match IndexOf(s, sep)
    case None =>
    case Some(i) =>
      Recompose(s, sep, i);
      SplitPieces(s[i + |sep|..], sep);
      forall j | 0 <= j ensures !OccursAt(s[..i], sep, j) {
        OccursInSlice(s, sep, 0, i, j);
      }
      assert !Contains(s[..i], sep);
  }

  lemma SplitAtFirst(s: string, sep: string, i: nat)
    requires sep != [] && IndexOf(s, sep) == Some(i)
    ensures Split(s, sep) == [s[..i]] + Split(s[i + |sep|..], sep)
  {
  }

  /** With no separator inside `a` and none straddling the seam, the first
      separator of `a + sep + b` is the one appended after `a`. */
  lemma FirstSeparatorAfter(a: string, sep: string, b: string)
    requires IndexOf(a, sep).None?
    requires forall j :: 0 <= j < |a| < j + |sep| ==> !OccursAt(a + sep, sep, j)
    ensures IndexOf(a + sep + b, sep) == Some(|a|)
  {
    var s := a + sep + b;
    assert OccursAt(s, sep, |a|) by { assert s[|a|..|a| + |sep|] == sep; }
    forall j | 0 <= j < |a| ensures !OccursAt(s, sep, j) {
      if j + |sep| <= |a| {
        assert s == a + (sep + b);
        SliceOfAppend(a, sep + b, j, j + |sep|);
        assert !OccursAt(a, sep, j);
      } else {
        assert s == (a + sep) + b;
        SliceOfAppend(a + sep, b, j, j + |sep|);
        assert !OccursAt(a + sep, sep, j);
      }
    }
  }

  /** The first separator inside `a` is also the first one of `a + t`. */
  lemma FirstSeparatorWithin(a: string, sep: string, t: string, i: nat)
    requires IndexOf(a, sep) == Some(i)
    ensures IndexOf(a + t, sep) == Some(i)
  {
    forall j | 0 <= j <= i ensures OccursAt(a + t, sep, j) == OccursAt(a, sep, j) {
      if j + |sep| <= |a| {
        SliceOfAppend(a, t, j, j + |sep|);
      }
    }
  }

  lemma AppendSlices(a: string, sep: string, b: string, i: nat)
    requires i + |sep| <= |a|
    ensures a + sep + b == a + (sep + b)
    ensures (a + sep + b)[..i] == a[..i]
    ensures (a + sep + b)[i + |sep|..] == a[i + |sep|..] + sep + b
  {
  }

  lemma AppendHalves(a: string, sep: string, b: string)
    ensures (a + sep + b)[..|a|] == a && (a + sep + b)[|a| + |sep|..] == b
  {
  }

  lemma SplitAppendLast(a: string, sep: string, b: string)
    requires sep != [] && IndexOf(a, sep).None?
    requires forall j :: 0 <= j < |a| < j + |sep| ==> !OccursAt(a + sep, sep, j)
    ensures Split(a + sep + b, sep) == Split(a, sep) + Split(b, sep)
  {
    FirstSeparatorAfter(a, sep, b);
    SplitAtFirst(a + sep + b, sep, |a|);
    AppendHalves(a, sep, b);
  }

  /** Splitting a concatenation at a separator that does not straddle the seam
      splits the two halves independently: pieces keep their order. */
  lemma {:induction false} SplitAppend(a: string, sep: string, b: string)
    requires sep != []
    requires forall j :: 0 <= j < |a| < j + |sep| ==> !OccursAt(a + sep, sep, j)
    ensures Split(a + sep + b, sep) == Split(a, sep) + Split(b, sep)
    decreases |a|, 1
  {
    match IndexOf(a, sep)
    case None => SplitAppendLast(a, sep, b);
    case Some(i) => SplitAppendAt(a, sep, b, i);
  }

  lemma {:induction false} SplitAppendAt(a: string, sep: string, b: string, i: nat)
    requires sep != [] && IndexOf(a, sep) == Some(i)
    requires forall j :: 0 <= j < |a| < j + |sep| ==> !OccursAt(a + sep, sep, j)
    ensures Split(a + sep + b, sep) == Split(a, sep) + Split(b, sep)
    decreases |a|, 0
  {
    var a' := a[i + |sep|..];
    forall j | 0 <= j < |a'| < j + |sep| ensures !OccursAt(a' + sep, sep, j) {
      ShiftedOccurrence(a, sep, i + |sep|, j);
    }
    SplitAppend(a', sep, b);
    AppendSlices(a, sep, b, i);
    FirstSeparatorWithin(a, sep, sep + b, i);
    SplitAtFirst(a + sep + b, sep, i);
    SplitAtFirst(a, sep, i);
  }

  lemma ShiftedOccurrence(a: string, sep: string, d: nat, j: nat)
    requires d <= |a|
    ensures OccursAt(a[d..] + sep, sep, j) == OccursAt(a + sep, sep, d + j)
  {
    assert a[d..] + sep == (a + sep)[d..];
  }

  /** Splitting a joined list gives the list back when no part contains the
      separator and no occurrence straddles a seam (always so for a one-character separator). */
  lemma {:induction false} SplitJoin(parts: seq<string>, sep: string)
    requires |sep| == 1 && parts != []
    requires forall k :: 0 <= k < |parts| ==> !Contains(parts[k], sep)
    ensures Split(Join(parts, sep), sep) == parts
  {
    if |parts| == 1 {
      assert IndexOf(parts[0], sep).None?;
    } else {
      SplitAppend(parts[0], sep, Join(parts[1..], sep));
      SplitJoin(parts[1..], sep);
      assert IndexOf(parts[0], sep).None?;
    }
  }

  /** The end of the run of `\s*` that starts at `i` (greedy). */
  function SkipSpaces(s: string, i: nat): (j: nat)
    requires i <= |s|
    ensures i <= j <= |s|
    ensures forall k :: i <= k < j ==> IsSpace(s[k])
    ensures j == |s| || !IsSpace(s[j])
    decreases |s| - i
  {
    if i < |s| && IsSpace(s[i]) then SkipSpaces(s, i + 1) else i
  }

  /** The end of the run of word characters that starts at `i` (`\w*`, greedy). */
  function SkipWord(s: string, i: nat): (j: nat)
    requires i <= |s|
    ensures i <= j <= |s|
    ensures forall k :: i <= k < j ==> IsWordChar(s[k])
    ensures j == |s| || !IsWordChar(s[j])
    decreases |s| - i
  {
    if i < |s| && IsWordChar(s[i]) then SkipWord(s, i + 1) else i
  }

  /** The end of the run of digits that starts at `i` (`\d*`, greedy). */
  function SkipDigits(s: string, i: nat): (j: nat)
    requires i <= |s|
    ensures i <= j <= |s|
    ensures forall k :: i <= k < j ==> IsDigit(s[k])
    ensures j == |s| || !IsDigit(s[j])
    decreases |s| - i
  {
    if i < |s| && IsDigit(s[i]) then SkipDigits(s, i + 1) else i
  }

  /** The first index at or after `i` holding `c`. */
  function FindChar(s: string, c: char, i: nat): (r: Option<nat>)
    requires i <= |s|
    ensures r.Some? ==> i <= r.value < |s| && s[r.value] == c
    ensures forall k :: i <= k < |s| && (r.None? || k < r.value) ==> s[k] != c
    decreases |s| - i
  {
    if i == |s| then None
    else if s[i] == c then Some(i)
    else FindChar(s, c, i + 1)
  }

  // ---------------------------------------------------------------------
  // Decimal numerals.

  predicate AllDigits(s: string) {
    forall k :: 0 <= k < |s| ==> IsDigit(s[k])
  }

  /** `int(s)` on a run of decimal digits. */
  function DigitsValue(s: string): nat
    requires AllDigits(s)
  {
    if s == [] then 0 else 10 * DigitsValue(s[..|s| - 1]) + (s[|s| - 1] as int - '0' as int)
  }

  function DigitChar(d: nat): (c: char)
    requires d < 10
    ensures IsDigit(c) && c as int - '0' as int == d
  {
    ('0' as int + d) as char
  }

  /** `str(n)` for a natural number: its decimal numeral, without leading zeros. */
  function NatToString(n: nat): (r: string)
    ensures r != [] && AllDigits(r)
    ensures DigitsValue(r) == n
    ensures |r| > 1 ==> r[0] != '0'
  {
    if n < 10 then [DigitChar(n)]
    else
      var front := NatToString(n / 10);
      var r := front + [DigitChar(n % 10)];
      assert r[..|r| - 1] == front;
      r
  }

  /** `str(i)` for an integer. */
  function IntToString(i: int): (r: string)
    ensures r != [] && '\n' !in r
    ensures r[0] == '-' <==> i < 0
    ensures i < 0 ==> r[1..] == NatToString(-i)
    ensures i >= 0 ==> r == NatToString(i)
  {
    if i < 0 then "-" + NatToString(-i) else NatToString(i)
  }
}
