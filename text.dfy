/**
 * The string primitives the log extractors rely on: Python's whitespace test behind `str.strip()`,
 * ASCII lower-casing, substring containment (`needle in haystack`) and `sep.join(lines)`.
 */
module Text {

  /** Python's `str.isspace()` for one character: the characters `str.strip()` removes. */
  predicate IsSpace(c: char)
  {
    var n := c as int;
    (0x09 <= n <= 0x0D) || (0x1C <= n <= 0x20) || n == 0x85 || n == 0xA0 || n == 0x1680 ||
    (0x2000 <= n <= 0x200A) || n == 0x2028 || n == 0x2029 || n == 0x202F || n == 0x205F || n == 0x3000
  }

  /** `not s.strip()`: the entry is empty or made only of whitespace. */
  predicate IsBlank(s: string)
  {
    forall k :: 0 <= k < |s| ==> IsSpace(s[k])
  }

  function LowerChar(c: char): char
  {
    if 'A' <= c <= 'Z' then (c as int + 32) as char else c
  }

  /** `s.lower()` restricted to ASCII letters. */
  function Lower(s: string): string
  {
    seq(|s|, k requires 0 <= k < |s| => LowerChar(s[k]))
  }

  /** `needle` occurs in `s` starting at index `i`. */
  predicate OccursAt(s: string, needle: string, i: nat)
  {
    i + |needle| <= |s| && s[i..i + |needle|] == needle
  }

  /** Python's `needle in s`. */
  predicate Contains(s: string, needle: string)
  {
    exists i: nat | i <= |s| :: OccursAt(s, needle, i)
  }

  /** Python's `sep.join(lines)`. */
  function Join(lines: seq<string>, sep: string): string
  {
    if |lines| == 0 then ""
    else if |lines| == 1 then lines[0]
    else lines[0] + sep + Join(lines[1..], sep)
  }

  /** A string holding a letter (in either case) is never blank. */
  lemma LetterIsNotBlank(s: string, k: nat)
    requires k < |s| && LowerChar(s[k]) == 'i'
    ensures !IsBlank(s)
  {
    assert !IsSpace(s[k]);
  }

  /** Joining non-empty lines gives a non-empty string; with a one-character separator, the first
      line is followed by that separator whenever another line comes after it. */
  lemma {:induction false} JoinShape(lines: seq<string>, sep: string)
    requires |lines| > 0 && |lines[0]| > 0
    ensures |Join(lines, sep)| >= |lines[0]|
    ensures Join(lines, sep)[..|lines[0]|] == lines[0]
    ensures |lines| == 1 ==> Join(lines, sep) == lines[0]
    ensures |lines| > 1 && |sep| > 0 ==>
      |Join(lines, sep)| > |lines[0]| && Join(lines, sep)[|lines[0]|] == sep[0]
  {
    if |lines| > 1 {
      var rest := Join(lines[1..], sep);
      assert Join(lines, sep) == lines[0] + sep + rest;
    }
  }
}
