/**
 * Character classes and case mapping over ASCII, as Python's `re` and
 * `str.lower()` treat the ASCII range. Characters outside ASCII are left
 * unchanged by `ToLower`.
 */
module Ascii {

  predicate IsAsciiChar(c: char) { (c as int) < 128 }

  predicate IsAsciiString(s: string) { forall i :: 0 <= i < |s| ==> IsAsciiChar(s[i]) }

  predicate IsUpper(c: char) { 'A' <= c <= 'Z' }

  predicate IsLowerLetter(c: char) { 'a' <= c <= 'z' }

  predicate IsDigit(c: char) { '0' <= c <= '9' }

  /** The ASCII part of the regular-expression class `\w`. */
  predicate IsWordChar(c: char)
    ensures IsWordChar(c) ==> IsAsciiChar(c)
    ensures IsWordChar(c) <==> IsLowerLetter(ToLower(c)) || IsDigit(c) || c == '_'
  {
    IsUpper(c) || IsLowerLetter(c) || IsDigit(c) || c == '_'
  }

  /**
   * The ASCII part of the regular-expression class `\s` on text: tab, line
   * feed, vertical tab, form feed, carriage return, the four information
   * separators 0x1C-0x1F, and space.
   */
  predicate IsSpace(c: char)
    ensures IsSpace(c) ==> IsAsciiChar(c) && !IsWordChar(c) && ToLower(c) == c
  {
    9 <= c as int <= 13 || 28 <= c as int <= 32
  }

  /** Lower-case one character: upper-case ASCII letters move to lower case, everything else stays. */
  function ToLower(c: char): (d: char)
    ensures !IsUpper(d)
    ensures IsUpper(c) ==> IsLowerLetter(d) && d as int == c as int + 32
    ensures !IsUpper(c) ==> d == c
    ensures IsAsciiChar(c) <==> IsAsciiChar(d)
  {
    if IsUpper(c) then (c as int + 32) as char else c
  }

  /** `str.lower()` on ASCII text. */
  function Lower(s: string): (r: string)
    ensures |r| == |s|
    ensures forall i :: 0 <= i < |s| ==> r[i] == ToLower(s[i])
    decreases |s|
  {
    if s == [] then [] else [ToLower(s[0])] + Lower(s[1..])
  }
}
