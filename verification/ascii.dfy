/**
 The string primitives the widget relies on, as JavaScript defines them:
 `toLowerCase` / `toUpperCase` restricted to the ASCII letters, `trim` over
 the ECMAScript white-space and line-terminator characters, and `includes`
 (substring search).
 */
module Ascii {

  type String = seq<char>

  predicate IsUpperLetter(c: char) {
    'A' <= c <= 'Z'
  }

  predicate IsLowerLetter(c: char) {
    'a' <= c <= 'z'
  }

  /** `toLowerCase` on one character; only ASCII letters are mapped. */
  function LowerChar(c: char): (r: char)
    ensures !IsUpperLetter(r)
    ensures IsUpperLetter(c) ==> IsLowerLetter(r) && r as int == c as int + 32
    ensures !IsUpperLetter(c) ==> r == c
  {
    if IsUpperLetter(c) then (c as int + 32) as char else c
  }

  /** `toUpperCase` on one character; only ASCII letters are mapped. */
  function UpperChar(c: char): (r: char)
    ensures !IsLowerLetter(r)
    ensures IsLowerLetter(c) ==> IsUpperLetter(r) && r as int + 32 == c as int
    ensures !IsLowerLetter(c) ==> r == c
  {
    if IsLowerLetter(c) then (c as int - 32) as char else c
  }

  /** Lower-casing forgets whether a letter was upper- or lower-case. */
  lemma LowerUpperChar(c: char)
    ensures LowerChar(UpperChar(c)) == LowerChar(c)
    ensures UpperChar(LowerChar(c)) == UpperChar(c)
  {
  }

  /** `String.prototype.toLowerCase`. */
  function Lower(s: String): (r: String)
    ensures |r| == |s|
    ensures forall i :: 0 <= i < |s| ==> r[i] == LowerChar(s[i])
  {
    seq(|s|, i requires 0 <= i < |s| => LowerChar(s[i]))
  }

  /** `String.prototype.toUpperCase`. */
  function Upper(s: String): (r: String)
    ensures |r| == |s|
    ensures forall i :: 0 <= i < |s| ==> r[i] == UpperChar(s[i])
  {
    seq(|s|, i requires 0 <= i < |s| => UpperChar(s[i]))
  }

  predicate NoUpperLetter(s: String) {
    forall i :: 0 <= i < |s| ==> !IsUpperLetter(s[i])
  }

  /** Lower-casing leaves no upper-case letter behind and is idempotent. */
  lemma LowerIdempotent(s: String)
    ensures NoUpperLetter(Lower(s))
    ensures Lower(Lower(s)) == Lower(s)
  {
  }

  /** Lower-casing an upper-cased string gives the lower-cased original. */
  lemma LowerOfUpper(s: String)
    ensures Lower(Upper(s)) == Lower(s)
  {
    forall i | 0 <= i < |s| ensures Lower(Upper(s))[i] == Lower(s)[i] {
      LowerUpperChar(s[i]);
    }
  }

  /**
   A character `String.prototype.trim` removes: the ECMAScript WhiteSpace
   characters (TAB, VT, FF, SP, NBSP, ZWNBSP and the other Zs characters)
   and the LineTerminator characters (LF, CR, LS, PS).
   */
  predicate IsWhitespace(c: char) {
    || c == '\t' || c == '\U{000B}' || c == '\U{000C}' || c == ' '
    || c == '\U{00A0}' || c == '\U{FEFF}' || c == '\U{1680}'
    || ('\U{2000}' <= c <= '\U{200A}')
    || c == '\U{202F}' || c == '\U{205F}' || c == '\U{3000}'
    || c == '\n' || c == '\r' || c == '\U{2028}' || c == '\U{2029}'
  }

  /** Case mapping never turns a white-space character into a visible one or back. */
  lemma CaseKeepsWhitespace(c: char)
    ensures IsWhitespace(LowerChar(c)) <==> IsWhitespace(c)
    ensures IsWhitespace(UpperChar(c)) <==> IsWhitespace(c)
  {
  }

  predicate IsBlank(s: String) {
    forall i :: 0 <= i < |s| ==> IsWhitespace(s[i])
  }

  /** How many white-space characters `s` starts with. */
  function LeadingBlanks(s: String): (n: nat)
    ensures n <= |s| && IsBlank(s[..n])
    ensures n == |s| || !IsWhitespace(s[n])
  {
    if s == [] || !IsWhitespace(s[0]) then 0
    else
      var n := 1 + LeadingBlanks(s[1..]);
      assert s[..n] == [s[0]] + s[1..][..n - 1];
      n
  }

  /** How many white-space characters `s` ends with. */
  function TrailingBlanks(s: String): (n: nat)
    ensures n <= |s| && IsBlank(s[|s| - n..])
    ensures n == |s| || !IsWhitespace(s[|s| - n - 1])
  {
    if s == [] || !IsWhitespace(s[|s| - 1]) then 0
    else
      var n := 1 + TrailingBlanks(s[..|s| - 1]);
      assert s[|s| - n..] == s[..|s| - 1][|s| - n..] + [s[|s| - 1]];
      n
  }

  /**
   `r` is `s` with its leading and trailing white space removed when cut out at
   offset `i`: everything around it is white space, and `r` itself neither
   starts nor ends with white space.
   */
  predicate TrimmedAt(s: String, r: String, i: int) {
    && 0 <= i && i + |r| <= |s| && s[i..i + |r|] == r
    && IsBlank(s[..i]) && IsBlank(s[i + |r|..])
    && (r == [] || (!IsWhitespace(r[0]) && !IsWhitespace(r[|r| - 1])))
  }

  ghost predicate IsTrimOf(s: String, r: String) {
    exists i :: TrimmedAt(s, r, i)
  }

  /** `String.prototype.trim`. */
  function Trim(s: String): (r: String)
    ensures IsTrimOf(s, r)
    ensures r == [] <==> IsBlank(s)
  {
    var lo := LeadingBlanks(s);
    var m := TrailingBlanks(s[lo..]);
    var hi := |s| - m;
    assert s[lo..][|s| - lo - m..] == s[hi..];
    assert m < |s| - lo ==> s[lo..][|s| - lo - m - 1] == s[hi - 1];
    TrimmedFromBounds(s, lo, hi);
    s[lo..hi]
  }

  /** Cutting `s` between its leading and its trailing white space trims it. */
  lemma TrimmedFromBounds(s: String, lo: int, hi: int)
    requires 0 <= lo <= hi <= |s|
    requires IsBlank(s[..lo]) && (lo == |s| || !IsWhitespace(s[lo]))
    requires IsBlank(s[hi..]) && (hi == lo || !IsWhitespace(s[hi - 1]))
    ensures TrimmedAt(s, s[lo..hi], lo)
    ensures lo == hi <==> IsBlank(s)
  {
    if lo == hi {
      BlankSplit(s, lo);
    }
  }

  /** A blank prefix followed by a blank suffix makes a blank string. */
  lemma BlankSplit(s: String, i: int)
    requires 0 <= i <= |s|
    requires IsBlank(s[..i]) && IsBlank(s[i..])
    ensures IsBlank(s)
  {
    forall k | 0 <= k < |s|
      ensures IsWhitespace(s[k])
    {
      if k < i { assert s[..i][k] == s[k]; } else { assert s[i..][k - i] == s[k]; }
    }
  }

  /** Where a trimmed, non-empty string starts in `s`: at its first non-blank character. */
  lemma TrimmedStart(s: String, r: String, i: int, j: int)
    requires TrimmedAt(s, r, i) && r != []
    requires 0 <= j < |s| && !IsWhitespace(s[j])
    ensures i <= j < i + |r|
  {
  }

  /** There is only one way to trim a string, so `IsTrimOf` pins `Trim` down. */
  lemma TrimOfUnique(s: String, r1: String, r2: String)
    requires IsTrimOf(s, r1) && IsTrimOf(s, r2)
    ensures r1 == r2
  {
    var i1 :| TrimmedAt(s, r1, i1);
    var i2 :| TrimmedAt(s, r2, i2);
    if r1 == [] && r2 != [] {
      BlankSplit(s, i1);
    } else if r2 == [] && r1 != [] {
      BlankSplit(s, i2);
    } else if r1 != [] {
      assert s[i1] == r1[0] && s[i2] == r2[0];
      TrimmedStart(s, r1, i1, i2);
      TrimmedStart(s, r2, i2, i1);
      var e1, e2 := i1 + |r1| - 1, i2 + |r2| - 1;
      assert s[e1] == r1[|r1| - 1] && s[e2] == r2[|r2| - 1];
      TrimmedStart(s, r1, i1, e2);
      TrimmedStart(s, r2, i2, e1);
    }
  }

  /** `Trim` leaves an already trimmed string alone. */
  lemma TrimOfTrimmed(s: String)
    requires s == [] || (!IsWhitespace(s[0]) && !IsWhitespace(s[|s| - 1]))
    ensures Trim(s) == s
  {
    assert s[0..0 + |s|] == s;
    assert s[..0] == [] && s[|s|..] == [];
    assert TrimmedAt(s, s, 0);
    TrimOfUnique(s, Trim(s), s);
  }

  /** `pat` occurs in `s` starting at index `i`. */
  ghost predicate OccursAt(s: String, pat: String, i: int) {
    0 <= i && i + |pat| <= |s| && s[i..i + |pat|] == pat
  }

  /** `String.prototype.includes`: does `pat` occur anywhere in `s`? */
  function Includes(s: String, pat: String): (r: bool)
    ensures r <==> exists i :: OccursAt(s, pat, i)
    decreases |s|
  {
    if |s| < |pat| then
      assert forall i :: !OccursAt(s, pat, i);
      false
    else if s[..|pat|] == pat then
      assert OccursAt(s, pat, 0);
      true
    else
      var r := Includes(s[1..], pat);
      assert forall i :: OccursAt(s[1..], pat, i) ==> OccursAt(s, pat, i + 1) by {
        forall i | OccursAt(s[1..], pat, i) ensures OccursAt(s, pat, i + 1) {
          assert s[1..][i..i + |pat|] == s[i + 1..i + 1 + |pat|];
        }
      }
      assert forall i :: OccursAt(s, pat, i) ==> OccursAt(s[1..], pat, i - 1) by {
        forall i | OccursAt(s, pat, i) ensures OccursAt(s[1..], pat, i - 1) {
          assert i != 0;
          assert s[1..][i - 1..i - 1 + |pat|] == s[i..i + |pat|];
        }
      }
      r
  }

  /** A text lacking one of the characters of `pat` cannot contain `pat`. */
  lemma AbsentCharNotIncluded(s: String, pat: String, k: int)
    requires 0 <= k < |pat| && pat[k] !in s
    ensures !Includes(s, pat)
  {
  }
}
