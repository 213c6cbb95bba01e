/** The few string operations the queries apply to their arguments and column names. */
module Text {

  /** Python's `str.upper()` restricted to ASCII letters. */
  function UpperChar(c: char): (u: char)
    ensures 'a' <= c <= 'z' ==> u as int == c as int - 32
    ensures !('a' <= c <= 'z') ==> u == c
  {
    if 'a' <= c <= 'z' then (c as int - 32) as char else c
  }

  function Upper(s: string): (u: string)
    ensures |u| == |s|
    ensures forall i :: 0 <= i < |s| ==> u[i] == UpperChar(s[i])
  {
    if s == [] then [] else [UpperChar(s[0])] + Upper(s[1..])
  }

  /** `s[-1:].isnumeric()` for ASCII digits: the last character is a digit. */
  predicate EndsWithDigit(s: string) {
    |s| > 0 && '0' <= s[|s| - 1] <= '9'
  }

  /** Upper-casing twice changes nothing more than upper-casing once. */
  lemma UpperIdempotent(s: string)
    ensures Upper(Upper(s)) == Upper(s)
  {
    assert forall i :: 0 <= i < |s| ==> Upper(Upper(s))[i] == UpperChar(UpperChar(s[i]));
  }

  /** Upper-casing leaves digits alone, so a label ends in a digit exactly when its upper-cased form does. */
  lemma UpperKeepsLastDigit(s: string)
    ensures EndsWithDigit(Upper(s)) <==> EndsWithDigit(s)
  {
  }

  /** `s[:|p|] == p`. */
  predicate HasPrefix(s: string, p: string) {
    |p| <= |s| && s[..|p|] == p
  }
}
