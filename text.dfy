/**
 * Characters and strings as JavaScript's regular expressions see them.
 * A string is a `seq<char>`; the character classes follow the ECMAScript
 * definitions that the schemas' regex literals rely on.
 */
module Text {

  /** `\d`: an ASCII decimal digit (JavaScript does not widen it to other scripts). */
  predicate IsDigit(c: char) {
    '0' <= c <= '9'
  }

  /** `\s`: ECMAScript WhiteSpace and LineTerminator code points. */
  predicate IsSpace(c: char) {
    var n := c as int;
    || 0x09 <= n <= 0x0D
    || n == 0x20 || n == 0xA0 || n == 0x1680
    || 0x2000 <= n <= 0x200A
    || n == 0x2028 || n == 0x2029 || n == 0x202F || n == 0x205F
    || n == 0x3000 || n == 0xFEFF
  }

  /** The characters `.` refuses to match when the `s` flag is off. */
  predicate IsLineTerminator(c: char) {
    var n := c as int;
    n == 0x0A || n == 0x0D || n == 0x2028 || n == 0x2029
  }

  predicate AllDigits(s: string) {
    forall i :: 0 <= i < |s| ==> IsDigit(s[i])
  }

  predicate NoSpace(s: string) {
    forall i :: 0 <= i < |s| ==> !IsSpace(s[i])
  }

  predicate NoLineBreak(s: string) {
    forall i :: 0 <= i < |s| ==> !IsLineTerminator(s[i])
  }

  predicate StartsWith(s: string, prefix: string) {
    |prefix| <= |s| && s[..|prefix|] == prefix
  }

  predicate EndsWith(s: string, suffix: string) {
    |suffix| <= |s| && s[|s| - |suffix|..] == suffix
  }

  /** `needle` occurs in `s` starting at index `i`. */
  predicate OccursAt(s: string, needle: string, i: int) {
    0 <= i && i + |needle| <= |s| && s[i..i + |needle|] == needle
  }

  /** `needle` occurs somewhere in `s`. */
  predicate Contains(s: string, needle: string) {
    exists i | 0 <= i <= |s| :: OccursAt(s, needle, i)
  }
}
