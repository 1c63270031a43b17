/** The string operations the hub search relies on: ASCII upper-casing and substring search. */
module Text {

  predicate IsLowerAscii(c: char) {
    'a' <= c <= 'z'
  }

  /** `Character.toUpperCase` restricted to ASCII letters. */
  function UpperChar(c: char): (u: char)
    ensures !IsLowerAscii(u)
    ensures !IsLowerAscii(c) ==> u == c
  {
    if IsLowerAscii(c) then (c as int - 32) as char else c
  }

  /** `String.toUpperCase` (Java) and `upper` (SQL), on ASCII letters. */
  function Upper(s: string): (u: string)
    ensures |u| == |s|
    ensures forall i :: 0 <= i < |s| ==> u[i] == UpperChar(s[i])
  {
    seq(|s|, i requires 0 <= i < |s| => UpperChar(s[i]))
  }

  /** `k` occurs in `s` starting at position `i`. */
  predicate OccursAt(s: string, k: string, i: int) {
    0 <= i && i + |k| <= |s| && s[i..i + |k|] == k
  }

  /** `s LIKE '%k%'`: `k` is a substring of `s`. */
  predicate Contains(s: string, k: string) {
    exists i | 0 <= i <= |s| :: OccursAt(s, k, i)
  }

  /** Upper-casing twice is upper-casing once. */
  lemma UpperIdempotent(s: string)
    ensures Upper(Upper(s)) == Upper(s)
  {
  }

  /** An upper-cased string contains no string that has a lower-case letter. */
  lemma UpperContainsNoLowerCase(s: string, k: string, j: int)
    requires 0 <= j < |k| && IsLowerAscii(k[j])
    ensures !Contains(Upper(s), k)
  {
    var u := Upper(s);
    forall i | 0 <= i <= |u|
      ensures !OccursAt(u, k, i)
    {
      if i + |k| <= |u| {
        assert u[i..i + |k|][j] == u[i + j];
      }
    }
  }
}
