/**
 * The token contract between the lexer and the rest of the pipeline: the
 * closed set of token kinds, the token record, and the upper-case kind names
 * used when tokens are written out one per line.
 */
module Tokens {
  import opened Wrappers

  datatype TokenType =
    | KEYWORD
    | IDENTIFIER
    | LITERAL
    | OPERATOR
    | DELIMITER
    | COMMENT
    | UNKNOWN
    | END_OF_FILE

  /** A token: its kind, its text, and the line and column it is reported at. */
  datatype Token = Token(kind: TokenType, value: string, line: int, column: int)

  /** The upper-case name of a token kind. */
  function TokenTypeToString(t: TokenType): (s: string)
    ensures TokenTypeFromString(s) == Some(t)
  {
    match t
    case KEYWORD => "KEYWORD"
    case IDENTIFIER => "IDENTIFIER"
    case LITERAL => "LITERAL"
    case OPERATOR => "OPERATOR"
    case DELIMITER => "DELIMITER"
    case COMMENT => "COMMENT"
    case UNKNOWN => "UNKNOWN"
    case END_OF_FILE => "END_OF_FILE"
  }

  /** Reads a kind name back; the partner of TokenTypeToString. */
  function TokenTypeFromString(s: string): (r: Option<TokenType>)
  {
    if s == "KEYWORD" then Some(KEYWORD)
    else if s == "IDENTIFIER" then Some(IDENTIFIER)
    else if s == "LITERAL" then Some(LITERAL)
    else if s == "OPERATOR" then Some(OPERATOR)
    else if s == "DELIMITER" then Some(DELIMITER)
    else if s == "COMMENT" then Some(COMMENT)
    else if s == "UNKNOWN" then Some(UNKNOWN)
    else if s == "END_OF_FILE" then Some(END_OF_FILE)
    else None
  }

  /** Distinct kinds have distinct names, so a written kind identifies the token kind. */
  lemma TokenTypeNamesDistinct(t: TokenType, u: TokenType)
    ensures TokenTypeToString(t) == TokenTypeToString(u) <==> t == u
  {
    assert TokenTypeFromString(TokenTypeToString(t)) == Some(t);
    assert TokenTypeFromString(TokenTypeToString(u)) == Some(u);
  }
}
