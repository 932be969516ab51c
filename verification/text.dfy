/**
 Character and string predicates the source takes from the .NET runtime:
 `char.IsWhiteSpace`, `string.IsNullOrWhiteSpace` (on a non-null string) and
 `string.Contains(_, StringComparison.OrdinalIgnoreCase)`.
 */
module Text {

  /** `char.IsWhiteSpace`: the Unicode space, line and paragraph separators
      together with U+0009..U+000D and U+0085. */
  predicate IsWhiteSpace(c: char) {
    || c == ' '
    || ('\t' <= c <= '\r')
    || c == '\U{85}'
    || c == '\U{A0}'
    || c == '\U{1680}'
    || ('\U{2000}' <= c <= '\U{200A}')
    || c == '\U{2028}'
    || c == '\U{2029}'
    || c == '\U{202F}'
    || c == '\U{205F}'
    || c == '\U{3000}'
  }

  /** `string.IsNullOrWhiteSpace` on a non-null string: empty, or white space up to the end. */
  predicate IsBlank(s: string) {
    |s| == 0 || (IsWhiteSpace(s[0]) && IsBlank(s[1..]))
  }

  /** Blank means: no character of the string is visible. */
  lemma {:induction false} BlankIffAllWhiteSpace(s: string)
    ensures IsBlank(s) <==> forall i | 0 <= i < |s| :: IsWhiteSpace(s[i])
    decreases |s|
  {
    if |s| > 0 {
      BlankIffAllWhiteSpace(s[1..]);
      assert forall i | 1 <= i < |s| :: s[1..][i - 1] == s[i];
    }
  }

  /** Simple upper-case mapping used by the ordinal case-insensitive comparison,
      restricted to ASCII letters. */
  function ToUpper(c: char): char {
    if 'a' <= c <= 'z' then (c as int - 32) as char else c
  }

  /** Ordinal comparison of two strings ignoring case. */
  predicate EqualsIgnoreCase(a: string, b: string) {
    |a| == |b| && forall i | 0 <= i < |a| :: ToUpper(a[i]) == ToUpper(b[i])
  }

  /** `haystack` holds `needle` at `start`, ignoring case. */
  predicate OccursAt(haystack: string, needle: string, start: nat)
    requires start + |needle| <= |haystack|
  {
    EqualsIgnoreCase(haystack[start..start + |needle|], needle)
  }

  /** `haystack.Contains(needle, StringComparison.OrdinalIgnoreCase)`. */
  predicate ContainsIgnoreCase(haystack: string, needle: string) {
    exists start: nat | start + |needle| <= |haystack| :: OccursAt(haystack, needle, start)
  }

  /** The search does not depend on the case in which the needle is written. */
  lemma SearchIgnoresNeedleCase(haystack: string, needle: string, other: string)
    requires EqualsIgnoreCase(needle, other)
    ensures ContainsIgnoreCase(haystack, needle) <==> ContainsIgnoreCase(haystack, other)
  {
    if ContainsIgnoreCase(haystack, needle) {
      var start: nat :| start + |needle| <= |haystack| && OccursAt(haystack, needle, start);
      assert OccursAt(haystack, other, start);
    }
    if ContainsIgnoreCase(haystack, other) {
      var start: nat :| start + |other| <= |haystack| && OccursAt(haystack, other, start);
      assert OccursAt(haystack, needle, start);
    }
  }

}
