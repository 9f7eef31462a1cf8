/** The small part of the Java platform the request classes rely on: the
    32-bit `int`, `String.toLowerCase()` and `Locale.toLanguageTag()`. */
module JavaLang {

  /** Java's `int` (and the value inside a non-null `Integer`). The request
      classes only store and return these, so no wrap-around arithmetic is needed. */
  newtype Int32 = x: int | -0x8000_0000 <= x < 0x8000_0000

  /** `java.util.Locale`, known to this model only through its language tag. */
  datatype Locale = Locale(languageTag: string)

  /** `Locale.toLanguageTag()`. */
  function ToLanguageTag(l: Locale): string
  {
    l.languageTag
  }

  predicate IsUpper(c: char)
  {
    'A' <= c <= 'Z'
  }

  /** A string with no upper-case ASCII letter in it. */
  predicate IsLowerCase(s: string)
  {
    forall i :: 0 <= i < |s| ==> !IsUpper(s[i])
  }

  /** Lower-cases one ASCII letter; every other character is left alone. */
  function LowerChar(c: char): (d: char)
    ensures !IsUpper(d)
    ensures IsUpper(c) ==> d as int - c as int == 'a' as int - 'A' as int
    ensures !IsUpper(c) ==> d == c
  {
    if IsUpper(c) then (c as int - 'A' as int + 'a' as int) as char else c
  }

  /** Two strings that differ at most in the case of their ASCII letters. */
  predicate EqualIgnoringCase(s: string, t: string)
  {
    |s| == |t| && forall i :: 0 <= i < |s| ==> LowerChar(s[i]) == LowerChar(t[i])
  }

  /** `String.toLowerCase()`, restricted to ASCII letters. */
  function ToLowerCase(s: string): (r: string)
    ensures |r| == |s|
    ensures forall i :: 0 <= i < |s| ==> r[i] == LowerChar(s[i])
    ensures IsLowerCase(r)
    ensures EqualIgnoringCase(r, s)
  {
    if s == [] then [] else [LowerChar(s[0])] + ToLowerCase(s[1..])
  }

  /** Lower-casing a second time changes nothing. */
  lemma ToLowerCaseIdempotent(s: string)
    ensures ToLowerCase(ToLowerCase(s)) == ToLowerCase(s)
  {
  }

  /** Lower-casing leaves a string alone exactly when it is already lower case. */
  lemma ToLowerCaseFixesExactlyLowerCase(s: string)
    ensures ToLowerCase(s) == s <==> IsLowerCase(s)
  {
  }
}
