/** The character classes the lexer's patterns are built from, as ASCII
    predicates. */
module Chars {

  /** `\d` */
  predicate IsDigit(c: char) {
    '0' <= c <= '9'
  }

  predicate IsLetter(c: char) {
    ('a' <= c <= 'z') || ('A' <= c <= 'Z')
  }

  /** `[a-zA-Z_]`, the first character of an identifier. */
  predicate IsIdStart(c: char) {
    IsLetter(c) || c == '_'
  }

  /** `\w` */
  predicate IsWordChar(c: char) {
    IsIdStart(c) || IsDigit(c)
  }

  /** `\s` below U+0080: space, tab, line feed, vertical tab, form feed,
      carriage return, and the four information separators U+001C to
      U+001F. */
  predicate IsSpace(c: char) {
    c == ' ' || c == '\t' || c == '\n' || c == '\r' || c == '\U{B}' || c == '\U{C}' || '\U{1C}' <= c <= '\U{1F}'
  }

  /** The single characters that are a whole token on their own. */
  predicate IsSymbol(c: char) {
    c == '+' || c == '-' || c == '*' || c == '/' || c == '=' || c == '(' || c == ')'
  }

  /** A character at which some pattern of the lexer can start a match. */
  predicate IsLexable(c: char) {
    IsDigit(c) || IsIdStart(c) || IsSymbol(c) || IsSpace(c)
  }

  /** A non-empty string of decimal digits. */
  predicate IsDigits(s: string) {
    |s| > 0 && forall i :: 0 <= i < |s| ==> IsDigit(s[i])
  }

  /** The value of one decimal digit. */
  function DigitValue(c: char): (d: nat)
    requires IsDigit(c)
    ensures d < 10
  {
    (c as int) - ('0' as int)
  }

  /** The digit character of a value below ten. */
  function DigitChar(d: nat): (c: char)
    requires d < 10
    ensures IsDigit(c) && DigitValue(c) == d
  {
    (('0' as int) + d) as char
  }

  /** The number a string of decimal digits denotes, most significant digit
      first (what Python's `int` makes of such a string). */
  function DecimalValue(s: string): nat
    requires forall i :: 0 <= i < |s| ==> IsDigit(s[i])
  {
    if s == [] then 0 else 10 * DecimalValue(s[..|s| - 1]) + DigitValue(s[|s| - 1])
  }

  /** The decimal numeral of a natural number, without leading zeros (what
      Python's `str` makes of it). */
  function Show(n: nat): (s: string)
    ensures IsDigits(s)
    ensures DecimalValue(s) == n
    ensures |s| > 1 ==> s[0] != '0'
  {
    if n < 10 then [DigitChar(n)]
    else
      var prefix := Show(n / 10);
      var s := prefix + [DigitChar(n % 10)];
      assert s[..|s| - 1] == prefix;
      s
  }
}
