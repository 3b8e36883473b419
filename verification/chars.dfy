/** Character classes of JavaScript regular expressions, over Unicode scalar values. */
module Chars {

  predicate IsUpperAscii(c: char) {
    'A' <= c <= 'Z'
  }

  predicate IsLowerAscii(c: char) {
    'a' <= c <= 'z'
  }

  predicate IsAsciiLetter(c: char) {
    IsUpperAscii(c) || IsLowerAscii(c)
  }

  /** `\d` */
  predicate IsDigit(c: char) {
    '0' <= c <= '9'
  }

  /** `\w` */
  predicate IsWordChar(c: char) {
    IsAsciiLetter(c) || IsDigit(c) || c == '_'
  }

  /** `\s`: the WhiteSpace and LineTerminator code points of ECMAScript. */
  predicate IsWhitespace(c: char) {
    || c == '\t' || c == '\n' || c == '\U{B}' || c == '\U{C}' || c == '\r'
    || c == ' ' || c == '\U{A0}' || c == '\U{1680}'
    || ('\U{2000}' <= c <= '\U{200A}')
    || c == '\U{2028}' || c == '\U{2029}' || c == '\U{202F}' || c == '\U{205F}'
    || c == '\U{3000}' || c == '\U{FEFF}'
  }

  /** `[А-Яа-я]`: the contiguous block U+0410..U+044F. */
  predicate IsBasicCyrillic(c: char) {
    '\U{410}' <= c <= '\U{44F}'
  }

  /** `String.prototype.toUpperCase` restricted to the characters `\w` matches. */
  function UpperWordChar(c: char): (u: char)
    requires IsWordChar(c)
    ensures IsWordChar(u) && !IsLowerAscii(u)
    ensures IsLowerAscii(c) ==> u as int == c as int - 32
    ensures !IsLowerAscii(c) ==> u == c
  {
    if IsLowerAscii(c) then (c as int - 32) as char else c
  }

  predicate All(s: string, p: char -> bool) {
    forall i :: 0 <= i < |s| ==> p(s[i])
  }

  predicate Any(s: string, p: char -> bool) {
    exists i :: 0 <= i < |s| && p(s[i])
  }
}
