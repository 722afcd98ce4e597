/** The Kotlin string primitives the core uses: `lowercase()`,
    `uppercase()`, `isBlank()` and `contains()`. Case mapping covers the
    ASCII letters, plus the German sharp s, whose upper case is the two
    letters "SS"; the rest of Unicode case mapping is not modelled. */
module Text {

  predicate IsAsciiUpper(c: char) {
    'A' <= c <= 'Z'
  }

  predicate IsAsciiLower(c: char) {
    'a' <= c <= 'z'
  }

  /** `Char.lowercase()` on the letters modelled. */
  function LowercaseChar(c: char): (r: char)
    ensures !IsAsciiUpper(r)
    ensures IsAsciiUpper(c) ==> r as int == c as int + 32
    ensures !IsAsciiUpper(c) ==> r == c
  {
    if IsAsciiUpper(c) then (c as int + 32) as char else c
  }

  /** `String.lowercase()`: each character mapped on its own. */
  function Lowercase(s: string): (r: string)
    ensures |r| == |s|
    ensures forall i :: 0 <= i < |s| ==> r[i] == LowercaseChar(s[i])
  {
    if s == [] then [] else [LowercaseChar(s[0])] + Lowercase(s[1..])
  }

  /** The upper case of one character, as a string: it may be longer than
      one character ('ß' becomes "SS"). */
  function UppercaseChar(c: char): (r: string)
    ensures |r| >= 1
    ensures !IsAsciiLower(r[0])
    ensures IsAsciiLower(c) ==> r == [(c as int - 32) as char]
    ensures c == 'ß' ==> r == "SS"
    ensures !IsAsciiLower(c) && c != 'ß' ==> r == [c]
  {
    if IsAsciiLower(c) then [(c as int - 32) as char]
    else if c == 'ß' then "SS"
    else [c]
  }

  /** `String.uppercase()`: the concatenation of the upper case of every
      character. */
  function Uppercase(s: string): (r: string)
    ensures |r| >= |s|
    ensures s != [] ==> r == UppercaseChar(s[0]) + Uppercase(s[1..])
  {
    if s == [] then [] else UppercaseChar(s[0]) + Uppercase(s[1..])
  }

  /** A character whose upper case is itself: an upper-case letter, or a
      character without case. */
  predicate IsUppercaseFixed(c: char) {
    UppercaseChar(c) == [c]
  }

  /** The first character of an upper case is its own upper case. */
  lemma UppercaseHeadIsFixed(c: char)
    ensures IsUppercaseFixed(UppercaseChar(c)[0])
  {
  }

  /** `Char.isWhitespace()` on the JVM: `Character.isWhitespace` or
      `Character.isSpaceChar`, listed by code point. */
  predicate IsWhitespace(c: char) {
    var n := c as int;
    (9 <= n <= 13) || (28 <= n <= 32) || n == 0xA0 || n == 0x1680 ||
    (0x2000 <= n <= 0x200A) || n == 0x2028 || n == 0x2029 || n == 0x202F ||
    n == 0x205F || n == 0x3000
  }

  /** `String.isBlank()`: empty, or whitespace only. */
  predicate IsBlank(s: string) {
    forall i :: 0 <= i < |s| ==> IsWhitespace(s[i])
  }

  /** `String.contains(other)`: `t` occurs in `s` at some position. */
  predicate Contains(s: string, t: string) {
    exists i :: 0 <= i <= |s| - |t| && OccursAt(s, t, i)
  }

  /** `t` occurs in `s` starting at position `i`. */
  predicate OccursAt(s: string, t: string, i: int) {
    0 <= i <= |s| - |t| && s[i..i + |t|] == t
  }

  /** A lower-cased string contains no term that has an ASCII upper-case
      letter in it. */
  lemma {:induction false} LowercaseContainsNoUpper(s: string, t: string, k: nat)
    requires k < |t| && IsAsciiUpper(t[k])
    ensures !Contains(Lowercase(s), t)
  {
    var low := Lowercase(s);
    forall i | 0 <= i <= |low| - |t| ensures !OccursAt(low, t, i) {
      assert low[i..i + |t|][k] == low[i + k] == LowercaseChar(s[i + k]);
    }
  }
}
