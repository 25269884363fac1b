/**
 * The two string primitives the mapper's timeout heuristic relies on:
 * ASCII lower-casing (PHP 8.2+ `strtolower`, which is locale-independent and
 * touches only 'A'..'Z') and substring search (`str_contains`).
 */
module Text {

  predicate IsAsciiUpper(c: char) {
    'A' <= c <= 'Z'
  }

  function LowerChar(c: char): (r: char)
    ensures !IsAsciiUpper(r)
    ensures IsAsciiUpper(c) ==> r as int == c as int + 32
    ensures !IsAsciiUpper(c) ==> r == c
  {
    if IsAsciiUpper(c) then (c as int + 32) as char else c
  }

  /** ASCII lower-casing: same length, every character lowered on its own. */
  function Lower(s: string): (r: string)
    ensures |r| == |s|
    ensures forall i :: 0 <= i < |s| ==> r[i] == LowerChar(s[i])
  {
    if s == [] then [] else [LowerChar(s[0])] + Lower(s[1..])
  }

  /** `needle` occurs in `haystack` starting at index `i`. */
  predicate OccursAt(haystack: string, needle: string, i: int) {
    0 <= i && i + |needle| <= |haystack| && haystack[i..i + |needle|] == needle
  }

  /**
   * `str_contains(haystack, needle)`: `needle` occurs at some index of
   * `haystack`. The empty needle is contained in every string, as in PHP 8.
   */
  predicate Contains(haystack: string, needle: string)
    ensures Contains(haystack, needle) ==> |needle| <= |haystack|
    ensures needle <= haystack ==> Contains(haystack, needle)
  {
    assert needle <= haystack ==> OccursAt(haystack, needle, 0);
    exists i | 0 <= i <= |haystack| - |needle| :: OccursAt(haystack, needle, i)
  }

  /** An occurrence of an occurrence is an occurrence. */
  lemma ContainsTransitive(haystack: string, middle: string, needle: string)
    requires Contains(haystack, middle) && Contains(middle, needle)
    ensures Contains(haystack, needle)
  {
    var i :| 0 <= i <= |haystack| - |middle| && OccursAt(haystack, middle, i);
    var j :| 0 <= j <= |middle| - |needle| && OccursAt(middle, needle, j);
    forall k | 0 <= k < |needle| ensures haystack[i + j + k] == needle[k] {
      assert needle[k] == middle[j + k] == haystack[i + j + k];
    }
    assert haystack[i + j..i + j + |needle|] == needle;
    assert OccursAt(haystack, needle, i + j);
  }

  /** Lower-casing commutes with taking a slice. */
  lemma LowerSlice(s: string, i: int, j: int)
    requires 0 <= i <= j <= |s|
    ensures Lower(s)[i..j] == Lower(s[i..j])
  {
  }

  /** A string without upper-case ASCII letters is its own lower-casing. */
  lemma LowerOfLowercase(s: string)
    requires forall i :: 0 <= i < |s| ==> !IsAsciiUpper(s[i])
    ensures Lower(s) == s
  {
  }

  /**
   * Case-insensitive search: wherever any casing of `pattern` occurs in `s`,
   * `pattern` itself occurs in the lower-cased `s`.
   */
  lemma ContainsAnyCasing(s: string, p: string, i: int, pattern: string)
    requires OccursAt(s, p, i)
    requires Lower(p) == pattern
    ensures Contains(Lower(s), pattern)
  {
    LowerSlice(s, i, i + |p|);
    assert OccursAt(Lower(s), pattern, i);
  }
}
