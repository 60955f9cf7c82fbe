/**
 The string trimming the page applies to every form field before it stores a record:
 a model of JavaScript's `String.prototype.trim`, which removes the ECMAScript
 WhiteSpace and LineTerminator code points from both ends of a string.
 */
module Text {

  /** The code points ECMAScript counts as WhiteSpace or LineTerminator. */
  predicate IsWhitespace(c: char) {
    || c == '\t' || c == '\n' || c == '\U{000B}' || c == '\U{000C}' || c == '\r'
    || c == ' ' || c == '\U{00A0}' || c == '\U{1680}'
    || ('\U{2000}' <= c <= '\U{200A}')
    || c == '\U{2028}' || c == '\U{2029}' || c == '\U{202F}' || c == '\U{205F}'
    || c == '\U{3000}' || c == '\U{FEFF}'
  }

  /** Every character of `s` is whitespace (this includes the empty string). */
  predicate IsBlank(s: string) {
    forall i :: 0 <= i < |s| ==> IsWhitespace(s[i])
  }

  /** `s` neither starts nor ends with whitespace. */
  predicate IsTrimmed(s: string) {
    s == [] || (!IsWhitespace(s[0]) && !IsWhitespace(s[|s| - 1]))
  }

  /** Every character of `s` outside the slice `s[i..j]` is whitespace. */
  predicate BlankOutside(s: string, i: int, j: int)
    requires 0 <= i <= j <= |s|
  {
    forall k :: 0 <= k < |s| && !(i <= k < j) ==> IsWhitespace(s[k])
  }

  /**
   Reference definition of trimming, independent of how `Trim` computes it:
   `r` is a slice `s[i..j]` that starts and ends with non-whitespace and
   everything cut away on either side is whitespace.
   */
  ghost predicate IsTrimOf(r: string, s: string) {
    exists i, j :: 0 <= i <= j <= |s| && r == s[i..j] && IsTrimmed(r) && BlankOutside(s, i, j)
  }

  /** The first position at or after `i` that does not hold whitespace, or `|s|`. */
  function SkipLeading(s: string, i: nat): (k: nat)
    requires i <= |s|
    ensures i <= k <= |s|
    ensures forall m :: i <= m < k ==> IsWhitespace(s[m])
    ensures k < |s| ==> !IsWhitespace(s[k])
    decreases |s| - i
  {
    if i < |s| && IsWhitespace(s[i]) then SkipLeading(s, i + 1) else i
  }

  /** The end of `s[lo..j]` once its trailing whitespace is dropped. */
  function SkipTrailing(s: string, lo: nat, j: nat): (k: nat)
    requires lo <= j <= |s|
    ensures lo <= k <= j
    ensures forall m :: k <= m < j ==> IsWhitespace(s[m])
    ensures k > lo ==> !IsWhitespace(s[k - 1])
    decreases j
  {
    if j > lo && IsWhitespace(s[j - 1]) then SkipTrailing(s, lo, j - 1) else j
  }

  /** `String.prototype.trim`. */
  function Trim(s: string): (r: string)
    ensures IsTrimmed(r)
    ensures |r| <= |s|
    ensures r == [] <==> IsBlank(s)
  {
    var i := SkipLeading(s, 0);
    s[i..SkipTrailing(s, i, |s|)]
  }

  /** The bounds of the slice `Trim` keeps: only whitespace lies outside them. */
  lemma TrimSlice(s: string) returns (i: int, j: int)
    ensures 0 <= i <= j <= |s| && Trim(s) == s[i..j] && BlankOutside(s, i, j)
  {
    i := SkipLeading(s, 0);
    j := SkipTrailing(s, i, |s|);
  }

  /** `Trim` meets the reference definition. */
  lemma TrimIsTrimOf(s: string)
    ensures IsTrimOf(Trim(s), s)
  {
    var i, j := TrimSlice(s);
    assert IsTrimmed(s[i..j]);
  }

  /** Two slices that both meet the reference definition have the same bounds or are both empty. */
  lemma {:induction false} TrimBoundsUnique(s: string, i1: int, j1: int, i2: int, j2: int)
    requires 0 <= i1 <= j1 <= |s| && IsTrimmed(s[i1..j1]) && BlankOutside(s, i1, j1)
    requires 0 <= i2 <= j2 <= |s| && IsTrimmed(s[i2..j2]) && BlankOutside(s, i2, j2)
    ensures s[i1..j1] == s[i2..j2]
  {
    if i1 < j1 {
      assert s[i1..j1][0] == s[i1] && s[i1..j1][j1 - 1 - i1] == s[j1 - 1];
      assert i2 <= i1 < j2 && i2 <= j1 - 1 < j2;
      assert s[i2..j2][0] == s[i2] && s[i2..j2][j2 - 1 - i2] == s[j2 - 1];
    }
  }

  /** Only the whitespace at the ends may be cut: the trim of a string is unique. */
  lemma TrimOfUnique(r1: string, r2: string, s: string)
    requires IsTrimOf(r1, s) && IsTrimOf(r2, s)
    ensures r1 == r2
  {
    var i1, j1 :| 0 <= i1 <= j1 <= |s| && r1 == s[i1..j1] && IsTrimmed(r1) && BlankOutside(s, i1, j1);
    var i2, j2 :| 0 <= i2 <= j2 <= |s| && r2 == s[i2..j2] && IsTrimmed(r2) && BlankOutside(s, i2, j2);
    TrimBoundsUnique(s, i1, j1, i2, j2);
  }

  /** `Trim` and the reference definition agree on every input, in both directions. */
  lemma TrimCharacterized(r: string, s: string)
    ensures IsTrimOf(r, s) <==> r == Trim(s)
  {
    TrimIsTrimOf(s);
    if IsTrimOf(r, s) {
      TrimOfUnique(r, Trim(s), s);
    }
  }

  /** A string with no whitespace at either end is its own trim. */
  lemma TrimmedIsFixpoint(s: string)
    requires IsTrimmed(s)
    ensures Trim(s) == s
  {
    assert IsTrimOf(s, s) by {
      assert s == s[0..|s|] && BlankOutside(s, 0, |s|);
    }
    TrimCharacterized(s, s);
  }

  /** Trimming twice is trimming once. */
  lemma TrimIdempotent(s: string)
    ensures Trim(Trim(s)) == Trim(s)
  {
    TrimmedIsFixpoint(Trim(s));
  }
}
