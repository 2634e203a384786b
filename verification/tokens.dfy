/**
 * Token kinds and character tests shared by the string-literal lexer and
 * the quote handler.
 *
 * The literal kinds are the ones the outer Rust lexer produces for a whole
 * literal token; the three escape kinds are the ones the string-literal
 * lexer reports for the escape sequences inside such a token.
 */
module Tokens {

  /** A value that may be absent; `None` plays the role of a Java `null`. */
  datatype Option<T> = None | Some(value: T)

  datatype TokenType =
    | StringLit
    | RawStringLit
    | CharLit
    | OtherToken(name: string)        // any other token kind of the outer lexer
    | ValidStringEscape
    | InvalidCharacterEscape
    | InvalidUnicodeEscape

  /** The two characters that open and close a literal. */
  predicate IsQuoteChar(c: char) {
    c == '"' || c == '\''
  }

  /** The offset after an optional byte marker `b` at `offset`. */
  function AfterByteMarker(chars: seq<char>, offset: int): int
    requires 0 <= offset < |chars|
  {
    if chars[offset] == 'b' then offset + 1 else offset
  }
}
