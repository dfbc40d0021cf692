/**
 * Character classes that the post commands rely on: the `\s` and `\d`
 * classes of JavaScript regular expressions and the ASCII part of
 * `String.prototype.toLowerCase`.
 */
module Chars {

  /** The characters matched by `\s` in a JavaScript regular expression. */
  predicate IsSpace(c: char)
    ensures IsSpace(c) ==> !IsUpper(c) && c != '-'
  {
    || c == ' ' || c == '\t' || c == '\n' || c == '\r'
    || c == '\U{000B}' || c == '\U{000C}' || c == '\U{00A0}' || c == '\U{1680}'
    || ('\U{2000}' <= c <= '\U{200A}')
    || c == '\U{2028}' || c == '\U{2029}' || c == '\U{202F}' || c == '\U{205F}'
    || c == '\U{3000}' || c == '\U{FEFF}'
  }

  predicate IsUpper(c: char) { 'A' <= c <= 'Z' }

  /** The characters matched by `\d`. */
  predicate IsDigit(c: char)
    ensures IsDigit(c) ==> !IsSpace(c) && !IsUpper(c)
  {
    '0' <= c <= '9'
  }

  /** The lower-case ASCII letters, in alphabetical order. */
  const LowerLetters := "abcdefghijklmnopqrstuvwxyz"

  /** `toLowerCase` restricted to ASCII letters. */
  function ToLower(c: char): (r: char)
    ensures !IsUpper(r)
    ensures r == c <==> !IsUpper(c)
    ensures IsSpace(r) <==> IsSpace(c)
    ensures IsUpper(c) ==> r == LowerLetters[c as int - 'A' as int]
  {
    if IsUpper(c) then (c as int + 32) as char else c
  }
}
