/** Character classes the lexer dispatches on (src/lexer.rs). */
module Chars {

  /** Rust's `char::is_whitespace`: the Unicode White_Space property. */
  predicate IsWhitespace(c: char)
  {
    ('\t' <= c <= '\r') || c == ' ' || c == '\U{0085}' || c == '\U{00A0}' ||
    c == '\U{1680}' || ('\U{2000}' <= c <= '\U{200A}') ||
    c == '\U{2028}' || c == '\U{2029}' || c == '\U{202F}' || c == '\U{205F}' ||
    c == '\U{3000}'
  }

  /** `char::is_digit(10)`: ASCII decimal digits only. */
  predicate IsDigit(c: char)
  {
    '0' <= c <= '9'
  }

  /** `char::is_ascii_alphabetic`. */
  predicate IsAsciiAlpha(c: char)
  {
    ('a' <= c <= 'z') || ('A' <= c <= 'Z')
  }

  /** `char::is_ascii_alphanumeric`. */
  predicate IsAsciiAlphanumeric(c: char)
  {
    IsAsciiAlpha(c) || IsDigit(c)
  }

  /** The characters an identifier may continue with. */
  predicate IsIdentChar(c: char)
  {
    IsAsciiAlphanumeric(c) || c == '_'
  }

  /** The ten characters that always form a token on their own. */
  predicate IsPunctuation(c: char)
  {
    c == '(' || c == ')' || c == '{' || c == '}' || c == ',' ||
    c == '.' || c == '-' || c == '+' || c == ';' || c == '*'
  }

  /** The four characters that may be followed by `=` to form a two-character operator. */
  predicate IsOperatorStart(c: char)
  {
    c == '!' || c == '=' || c == '<' || c == '>'
  }
}
