/** Classes of characters that the writers and the readers share. */
module Chars {
  import opened Decimal

  predicate IsControl(c: char) {
    c <= 31 as char || c >= 127 as char
  }

  /** Characters of a key of the key/value format. */
  predicate IsKeyChar(c: char) {
    'a' <= c <= 'z' || 'A' <= c <= 'Z' || IsDigit(c) || c == '.' || c == '_' || c == '-'
  }

  /** Blanks between the tokens of a JSON text. */
  predicate IsWhitespace(c: char) {
    c == ' ' || c == '\n' || c == '\r' || c == '\t'
  }
}
