/**
 * ASCII case mapping. The service lower-cases the Operation header before
 * matching it, and compares request paths case-insensitively; both are
 * modelled here on the ASCII letters only.
 */
module Ascii {

  predicate IsUpper(c: char) {
    'A' <= c <= 'Z'
  }

  /** 'A'..'Z' become 'a'..'z'; every other character is kept. */
  function LowerChar(c: char): char {
    if IsUpper(c) then (c as int + 32) as char else c
  }

  /** 'a'..'z' become 'A'..'Z'; every other character is kept. */
  function UpperChar(c: char): char {
    if 'a' <= c <= 'z' then (c as int - 32) as char else c
  }

  /** Lower-cases a whole string, character by character. */
  function Lower(s: string): (r: string)
    ensures |r| == |s|
    ensures forall i :: 0 <= i < |s| ==> r[i] == LowerChar(s[i])
    ensures forall i :: 0 <= i < |r| ==> !IsUpper(r[i])
  {
    seq(|s|, i requires 0 <= i < |s| => LowerChar(s[i]))
  }

  /** `s` spells the word `w` with each letter in either case. */
  predicate IsCaseVariant(s: string, w: string) {
    |s| == |w| && forall i :: 0 <= i < |s| ==> s[i] == w[i] || s[i] == UpperChar(w[i])
  }

  /** A string with no upper-case letter is its own lower-case form. */
  lemma LowerOfLowerCase(w: string)
    requires forall i :: 0 <= i < |w| ==> !IsUpper(w[i])
    ensures Lower(w) == w
  {
  }

  /** Lower-casing twice is lower-casing once. */
  lemma LowerIdempotent(s: string)
    ensures Lower(Lower(s)) == Lower(s)
  {
    LowerOfLowerCase(Lower(s));
  }

  /** Lower-casing commutes with concatenation. */
  lemma LowerAppend(s: string, t: string)
    ensures Lower(s + t) == Lower(s) + Lower(t)
  {
    forall i | 0 <= i < |s + t|
      ensures Lower(s + t)[i] == (Lower(s) + Lower(t))[i]
    {
      if i >= |s| {
        assert (s + t)[i] == t[i - |s|];
      }
    }
  }

  /** Lower-casing commutes with taking a prefix. */
  lemma LowerPrefix(s: string, k: nat)
    requires k <= |s|
    ensures Lower(s[..k]) == Lower(s)[..k]
  {
    assert s == s[..k] + s[k..];
    LowerAppend(s[..k], s[k..]);
  }

  /**
   * The characters whose lower-case form is `x`, for an `x` that is not an
   * upper-case letter, are `x` itself and its upper-case partner.
   */
  lemma LowerCharInverse(c: char, x: char)
    requires !IsUpper(x)
    ensures LowerChar(c) == x <==> c == x || c == UpperChar(x)
  {
  }

  /**
   * For a word without upper-case letters, `Lower(s) == w` holds exactly for
   * the case variants of `w`.
   */
  lemma LowerMatchesWord(s: string, w: string)
    requires forall i :: 0 <= i < |w| ==> !IsUpper(w[i])
    ensures Lower(s) == w <==> IsCaseVariant(s, w)
  {
    if |s| == |w| {
      forall i | 0 <= i < |s|
        ensures LowerChar(s[i]) == w[i] <==> s[i] == w[i] || s[i] == UpperChar(w[i])
      {
        LowerCharInverse(s[i], w[i]);
      }
      if IsCaseVariant(s, w) {
        assert forall i :: 0 <= i < |s| ==> Lower(s)[i] == w[i];
      }
    }
  }
}
