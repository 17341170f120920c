/**
 * The string operations the access checks and the document-type parser rely on.
 * Python's str.lower() is modelled on ASCII letters only: 'A'..'Z' become 'a'..'z',
 * every other character is kept as it is.
 */
module Text {

  function LowerChar(c: char): char
  {
    if 'A' <= c <= 'Z' then (c as int + 32) as char else c
  }

  function UpperChar(c: char): char
  {
    if 'a' <= c <= 'z' then (c as int - 32) as char else c
  }

  /** No ASCII capital letter occurs in s. */
  predicate IsLowerCase(s: string)
  {
    forall i :: 0 <= i < |s| ==> !('A' <= s[i] <= 'Z')
  }

  /** s.lower(), letter by letter. */
  function Lower(s: string): (r: string)
    ensures |r| == |s|
    ensures forall i :: 0 <= i < |s| ==> r[i] == LowerChar(s[i])
    ensures IsLowerCase(r)
  {
    if s == [] then [] else [LowerChar(s[0])] + Lower(s[1..])
  }

  /** s.upper(), letter by letter; used to state that letter case does not matter. */
  function Upper(s: string): (r: string)
    ensures |r| == |s|
    ensures forall i :: 0 <= i < |s| ==> r[i] == UpperChar(s[i])
  {
    if s == [] then [] else [UpperChar(s[0])] + Upper(s[1..])
  }

  /** Lower-casing a string that has no capital letter changes nothing. */
  lemma LowerOfLowerCase(s: string)
    requires IsLowerCase(s)
    ensures Lower(s) == s
  {
    assert forall i :: 0 <= i < |s| ==> Lower(s)[i] == s[i];
  }

  /** Lower-casing is idempotent. */
  lemma LowerIdempotent(s: string)
    ensures Lower(Lower(s)) == Lower(s)
  {
    LowerOfLowerCase(Lower(s));
  }

  /** Upper-casing first and then lower-casing gives what lower-casing alone gives. */
  lemma LowerOfUpper(s: string)
    ensures Lower(Upper(s)) == Lower(s)
  {
    assert forall i :: 0 <= i < |s| ==> Lower(Upper(s))[i] == Lower(s)[i];
  }

  /** Two strings that differ only in the case of their letters lower-case to the same string. */
  lemma LowerIgnoresCase(s: string, t: string)
    requires |s| == |t|
    requires forall i :: 0 <= i < |s| ==> LowerChar(s[i]) == LowerChar(t[i])
    ensures Lower(s) == Lower(t)
  {
    assert forall i :: 0 <= i < |s| ==> Lower(s)[i] == Lower(t)[i];
  }

  predicate IsPrefix(p: string, s: string)
  {
    |p| <= |s| && p == s[..|p|]
  }

  /** p occurs in s as a contiguous piece: the meaning of SQL `LIKE '%p%'`. */
  predicate IsInfix(p: string, s: string)
  {
    IsPrefix(p, s) || (s != [] && IsInfix(p, s[1..]))
  }

  /** IsInfix finds p at every position where it occurs, and only there. */
  lemma {:induction false} IsInfixAt(p: string, s: string)
    ensures IsInfix(p, s) <==> exists i :: 0 <= i <= |s| && IsPrefix(p, s[i..])
  {
    assert s[0..] == s;
    if s != [] {
      IsInfixAt(p, s[1..]);
      assert forall i :: 1 <= i <= |s| ==> s[i..] == s[1..][i - 1..];
    }
  }
}
