/** ASCII case folding, as `std::transform(..., ::tolower)` performs it in
    the "C" locale: 'A'..'Z' become 'a'..'z' and every other character is
    left as it is. */
module Ascii {

  predicate IsUpper(c: char) {
    'A' <= c <= 'Z'
  }

  /** `::tolower` on one character. */
  function LowerChar(c: char): (d: char)
    ensures !IsUpper(d)
    ensures !IsUpper(c) ==> d == c
    ensures IsUpper(c) ==> 'a' <= d <= 'z' && d as int == c as int + CaseOffset
  {
    if IsUpper(c) then (c as int - 'A' as int + 'a' as int) as char else c
  }

  /** The whole string lowercased, one character at a time. */
  function Lower(s: string): (r: string)
    ensures |r| == |s|
    ensures forall i :: 0 <= i < |s| ==> r[i] == LowerChar(s[i])
  {
    if s == [] then [] else [LowerChar(s[0])] + Lower(s[1..])
  }

  predicate HasNoUpper(s: string) {
    forall i :: 0 <= i < |s| ==> !IsUpper(s[i])
  }

  /** The distance from an upper-case ASCII letter to its lower-case letter. */
  const CaseOffset: int := 'a' as int - 'A' as int

  /** Two characters that are equal, or are the upper- and lower-case forms
      of one ASCII letter. */
  predicate SameIgnoringCase(x: char, y: char) {
    || x == y
    || (IsUpper(x) && y as int == x as int + CaseOffset)
    || (IsUpper(y) && x as int == y as int + CaseOffset)
  }

  /** Two strings that differ only in the case of ASCII letters. */
  predicate EqualIgnoringCase(a: string, b: string) {
    |a| == |b| && forall i :: 0 <= i < |a| ==> SameIgnoringCase(a[i], b[i])
  }

  /** The in-place `std::transform` loop over the string's characters. */
  method TransformToLower(s: string) returns (r: string)
    ensures |r| == |s|
    ensures HasNoUpper(r)
    ensures forall i :: 0 <= i < |s| ==> (IsUpper(s[i]) ==> r[i] as int == s[i] as int + CaseOffset)
    ensures forall i :: 0 <= i < |s| ==> (!IsUpper(s[i]) ==> r[i] == s[i])
    ensures r == Lower(s)
  {
    r := s;
    var i := 0;
    while i < |s|
      invariant 0 <= i <= |s|
      invariant |r| == |s|
      invariant forall j :: 0 <= j < i ==> r[j] == LowerChar(s[j])
      invariant forall j :: i <= j < |s| ==> r[j] == s[j]
    {
      r := r[i := LowerChar(r[i])];
      i := i + 1;
    }
  }

  /** A lowercased string contains no upper-case letter. */
  lemma LowerHasNoUpper(s: string)
    ensures HasNoUpper(Lower(s))
  {
  }

  /** Lowercasing leaves a string without upper-case letters unchanged. */
  lemma LowerOfNoUpper(s: string)
    requires HasNoUpper(s)
    ensures Lower(s) == s
  {
  }

  /** Lowercasing twice is lowercasing once. */
  lemma LowerIdempotent(s: string)
    ensures Lower(Lower(s)) == Lower(s)
  {
    LowerHasNoUpper(s);
    LowerOfNoUpper(Lower(s));
  }

  /** Two strings have the same lowercase form exactly when they differ only
      in the case of ASCII letters. */
  lemma LowerEqualIffEqualIgnoringCase(a: string, b: string)
    ensures Lower(a) == Lower(b) <==> EqualIgnoringCase(a, b)
  {
    forall i | 0 <= i < |a| && i < |b|
      ensures Lower(a)[i] == Lower(b)[i] <==> SameIgnoringCase(a[i], b[i])
    {
      LowerCharEqualIff(a[i], b[i]);
    }
    if Lower(a) == Lower(b) {
      assert forall i :: 0 <= i < |a| ==> Lower(a)[i] == Lower(b)[i];
    }
  }

  /** One character: the same lowercase form exactly when the two differ
      at most in letter case. */
  lemma LowerCharEqualIff(x: char, y: char)
    ensures LowerChar(x) == LowerChar(y) <==> SameIgnoringCase(x, y)
  {
  }
}
