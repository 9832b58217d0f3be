/**
 City-name normalisation, the first step of the submit handler: the query is
 trimmed, its first character upper-cased and the rest lower-cased. A blank
 query normalises to the empty string, which the handler rejects.
 */
module CityName {
  import opened Ascii

  /** The shape every submitted city name has. */
  predicate IsNormalized(s: String) {
    s == [] ||
      (&& !IsWhitespace(s[0]) && !IsWhitespace(s[|s| - 1])
       && !IsLowerLetter(s[0]) && NoUpperLetter(s[1..]))
  }

  /**
   Upper-cases the first character and lower-cases the rest: the case of the
   result is fixed, its letters and white space are those of `t`.
   */
  function Capitalize(t: String): (r: String)
    ensures |r| == |t|
    ensures r != [] ==> !IsLowerLetter(r[0]) && NoUpperLetter(r[1..])
    ensures Lower(r) == Lower(t)
    ensures forall i :: 0 <= i < |t| ==> IsWhitespace(r[i]) == IsWhitespace(t[i])
  {
    if t == [] then []
    else
      var r := [UpperChar(t[0])] + Lower(t[1..]);
      assert r[1..] == Lower(t[1..]);
      LowerIdempotent(t[1..]);
      LowerUpperChar(t[0]);
      assert forall i :: 0 <= i < |t| ==> IsWhitespace(r[i]) == IsWhitespace(t[i]) by {
        forall i | 0 <= i < |t| ensures IsWhitespace(r[i]) == IsWhitespace(t[i]) {
          CaseKeepsWhitespace(t[i]);
        }
      }
      r
  }

  /** The normalisation of `handleSubmitCity`. */
  function Normalize(query: String): (r: String)
    ensures IsNormalized(r)
    ensures |r| == |Trim(query)|
    ensures r == [] <==> IsBlank(query)
    ensures Lower(r) == Lower(Trim(query))
  {
    var t := Trim(query);
    assert IsTrimOf(query, t);
    Capitalize(t)
  }

  /** A normalised name is left alone by a second normalisation. */
  lemma NormalizedIsFixpoint(s: String)
    requires IsNormalized(s)
    ensures Normalize(s) == s
  {
    TrimOfTrimmed(s);
    if s != [] {
      var r := Normalize(s);
      assert r[0] == UpperChar(s[0]) == s[0];
      forall i | 1 <= i < |s| ensures r[i] == s[i] {
        assert s[1..][i - 1] == s[i];
      }
    }
  }

  /** Normalising twice gives the same result as normalising once. */
  lemma NormalizeIdempotent(query: String)
    ensures Normalize(Normalize(query)) == Normalize(query)
  {
    NormalizedIsFixpoint(Normalize(query));
  }

  /**
   Trimming a string that a case mapping turned into `a` gives the case
   mapping of the trimmed string.
   */
  lemma TrimCommutesWithCase(s: String, a: String, f: char -> char)
    requires forall c :: IsWhitespace(f(c)) == IsWhitespace(c)
    requires |a| == |s| && forall k :: 0 <= k < |s| ==> a[k] == f(s[k])
    ensures |Trim(a)| == |Trim(s)|
    ensures forall j :: 0 <= j < |Trim(s)| ==> Trim(a)[j] == f(Trim(s)[j])
  {
    var r := Trim(s);
    var i :| TrimmedAt(s, r, i);
    var ra := a[i..i + |r|];
    TrimmedAtImage(s, a, f, r, i);
    TrimOfUnique(a, Trim(a), ra);
  }

  /** A case mapping carries a trimming cut of `s` over to the same cut of its image `a`. */
  lemma TrimmedAtImage(s: String, a: String, f: char -> char, r: String, i: int)
    requires forall c :: IsWhitespace(f(c)) == IsWhitespace(c)
    requires |a| == |s| && forall k :: 0 <= k < |s| ==> a[k] == f(s[k])
    requires TrimmedAt(s, r, i)
    ensures TrimmedAt(a, a[i..i + |r|], i)
  {
    BlankImage(s, a, f, 0, i);
    BlankImage(s, a, f, i + |r|, |s|);
    assert s[..i] == s[0..i] && a[..i] == a[0..i];
    assert s[i + |r|..] == s[i + |r|..|s|] && a[i + |r|..] == a[i + |r|..|a|];
    var ra := a[i..i + |r|];
    assert ra != [] ==> ra[0] == f(r[0]) && ra[|ra| - 1] == f(r[|r| - 1]);
  }

  /** A blank stretch of `s` is blank in its case-mapped image too. */
  lemma BlankImage(s: String, a: String, f: char -> char, lo: int, hi: int)
    requires forall c :: IsWhitespace(f(c)) == IsWhitespace(c)
    requires |a| == |s| && forall k :: 0 <= k < |s| ==> a[k] == f(s[k])
    requires 0 <= lo <= hi <= |s| && IsBlank(s[lo..hi])
    ensures IsBlank(a[lo..hi])
  {
    forall k | 0 <= k < hi - lo ensures IsWhitespace(a[lo..hi][k]) {
      assert s[lo..hi][k] == s[lo + k];
    }
  }

  /** `Trim` and lower-casing can be applied in either order. */
  lemma TrimLower(s: String)
    ensures Trim(Lower(s)) == Lower(Trim(s))
  {
    forall c ensures IsWhitespace(LowerChar(c)) == IsWhitespace(c) {
      CaseKeepsWhitespace(c);
    }
    TrimCommutesWithCase(s, Lower(s), LowerChar);
  }

  /**
   Normalisation ignores case: two queries that agree once lower-cased give
   the same city name.
   */
  lemma NormalizeIgnoresCase(q1: String, q2: String)
    requires Lower(q1) == Lower(q2)
    ensures Normalize(q1) == Normalize(q2)
  {
    TrimLower(q1);
    TrimLower(q2);
    if Trim(q1) != [] {
      CapitalizeIgnoresCase(Trim(q1), Trim(q2));
    }
  }

  /** Upper-casing the first character and lower-casing the rest only looks at the lower-case form. */
  lemma CapitalizeIgnoresCase(t1: String, t2: String)
    requires Lower(t1) == Lower(t2) && t1 != []
    ensures Capitalize(t1) == Capitalize(t2)
  {
    assert LowerChar(t1[0]) == Lower(t1)[0] == Lower(t2)[0] == LowerChar(t2[0]);
    LowerUpperChar(t1[0]);
    LowerUpperChar(t2[0]);
    forall i | 0 <= i < |t1| - 1 ensures Lower(t1[1..])[i] == Lower(t2[1..])[i] {
      assert Lower(t1)[i + 1] == Lower(t2)[i + 1];
    }
  }

  /** Surrounding white space never reaches the normalised name. */
  lemma NormalizeIgnoresSurroundingBlanks(query: String)
    ensures Normalize(Trim(query)) == Normalize(query)
  {
    var t := Trim(query);
    assert IsTrimOf(query, t);
    TrimOfTrimmed(t);
  }

  /**
   "  nEW york " becomes "New york": only the very first letter is capitalised.
   The literal reaches the proof through a parameter fixed by `requires`, so
   the verifier does not unroll the recursive string functions on a constant.
   */
  lemma NewYork(query: String)
    requires query == "  nEW york "
    ensures Normalize(query) == "New york"
  {
    NewYorkTrim(query);
    NewYorkCapitalize(Trim(query));
  }

  /** Capitalising the trimmed example. */
  lemma NewYorkCapitalize(t: String)
    requires t == "nEW york"
    ensures Capitalize(t) == "New york"
  {
    assert t[1..] == "EW york";
    assert Lower(t[1..]) == "ew york";
  }

  /** Trimming the example drops two leading blanks and one trailing blank. */
  lemma NewYorkTrim(query: String)
    requires query == "  nEW york "
    ensures Trim(query) == "nEW york"
  {
    var t := query[2..10];
    assert t == "nEW york";
    assert TrimmedAt(query, t, 2);
    TrimOfUnique(query, Trim(query), t);
  }
}
