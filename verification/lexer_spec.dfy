/**
 * What the lexer computes, as functions of the input and of the cursor: one
 * function per scanning loop of the `Lexer` class. The same helpers serve
 * both builds of the lexer; they differ only in the keyword set and in what
 * happens after a number (see TokenScanFor).
 */
module LexerSpec {
  import opened Text
  import opened Tokens
  import opened Errors

  /** The keyword set of the current lexer: fifteen words. */
  const Keywords: set<string> := {
    "dataset", "fn", "for", "in", "return", "if", "else", "while",
    "Int", "Float", "Void", "Vector", "Matrix", "to", "Dataset"
  }

  /** The keyword set of the older lexer: the same words without `Void`. */
  const LegacyKeywords: set<string> := {
    "dataset", "fn", "for", "in", "return", "if", "else", "while",
    "Int", "Float", "Vector", "Matrix", "to", "Dataset"
  }

  /** Every diagnostic of the lexer names this file. */
  const FileName: string := "input"

  const DelimiterChars: set<char> := {'(', ')', '{', '}', '[', ']', ',', ':', ';', '<', '>'}

  /** The cursor: next position, line, column, and the diagnostics reported so far. */
  datatype LexState = LexState(pos: nat, line: int, column: int, log: seq<Diagnostic>)

  /** The cursor of a fresh lexer. */
  const Start: LexState := LexState(0, 1, 1, [])

  /** A token and the cursor after it. */
  datatype Scanned = Scanned(token: Token, after: LexState)

  /** All tokens and the final cursor. */
  datatype Lexed = Lexed(tokens: seq<Token>, after: LexState)

  predicate IsWordChar(c: char) { IsAlnum(c) || c == '_' }

  predicate IsBlank(c: char) { c == ' ' || c == '\r' || c == '\t' || c == '\n' }

  /** The character under the cursor, NUL at the end of the input. */
  function PeekAt(input: string, pos: nat): char
  {
    if pos >= |input| then '\0' else input[pos]
  }

  /** One character consumed: position and column move by one. */
  function Advanced(st: LexState): LexState
  {
    st.(pos := st.pos + 1, column := st.column + 1)
  }

  /** The token built at the cursor: its column is the cursor's minus the text length. */
  function TokenAt(st: LexState, kind: TokenType, value: string): Token
  {
    Token(kind, value, st.line, st.column - |value|)
  }

  function Reported(st: LexState, d: Diagnostic): LexState
  {
    st.(log := st.log + [d])
  }

  /** skipWhitespace: spaces, tabs and carriage returns advance; a newline also bumps the line and restarts the column. */
  function WhitespaceSkipped(input: string, st: LexState): (r: LexState)
    requires st.pos <= |input|
    ensures st.pos <= r.pos <= |input|
    ensures r.log == st.log
    ensures r.pos < |input| ==> !IsBlank(input[r.pos])
    decreases |input| - st.pos
  {
    if st.pos < |input| && IsBlank(input[st.pos]) then
      var st1 := if input[st.pos] == '\n' then st.(line := st.line + 1, column := 1) else st;
      WhitespaceSkipped(input, Advanced(st1))
    else st
  }

  /** skipComment: everything up to, not including, the next newline. */
  function CommentSkipped(input: string, st: LexState): (r: LexState)
    requires st.pos <= |input|
    ensures st.pos <= r.pos <= |input|
    ensures r.line == st.line && r.log == st.log
    ensures r.column == st.column + (r.pos - st.pos)
    ensures r.pos == |input| || input[r.pos] == '\n'
    decreases |input| - st.pos
  {
    if st.pos < |input| && input[st.pos] != '\n' then CommentSkipped(input, Advanced(st)) else st
  }

  /** The loop over letters, digits and underscores. */
  function WordScanned(input: string, st: LexState): (r: LexState)
    requires st.pos <= |input|
    ensures st.pos <= r.pos <= |input|
    ensures r.line == st.line && r.log == st.log
    ensures r.column == st.column + (r.pos - st.pos)
    ensures r.pos == |input| || !IsWordChar(input[r.pos])
    decreases |input| - st.pos
  {
    if IsWordChar(PeekAt(input, st.pos)) then WordScanned(input, Advanced(st)) else st
  }

  /** scanIdentifierOrKeyword, entered with the first character already consumed. */
  function IdentifierScan(input: string, keywords: set<string>, st: LexState): Scanned
    requires 1 <= st.pos <= |input|
  {
    var r := WordScanned(input, st);
    var value := input[st.pos - 1..r.pos];
    if value in keywords then Scanned(TokenAt(r, KEYWORD, value), r)
    else if !IsAlpha(value[0]) && value[0] != '_' then
      var r' := Reported(r, InvalidIdentifier(FileName, r.line, r.column - |value|, value));
      Scanned(TokenAt(r', UNKNOWN, value), r')
    else Scanned(TokenAt(r, IDENTIFIER, value), r)
  }

  /** The loop of scanNumber: digits and at most one decimal point; the text so far is input[start..st.pos]. */
  function NumberLoop(input: string, st: LexState, start: nat, hasDot: bool): (s: Scanned)
    requires start < st.pos <= |input|
    ensures st.pos <= s.after.pos <= |input|
    ensures s.token.kind == LITERAL || s.token.kind == UNKNOWN
    decreases |input| - st.pos
  {
    var p := PeekAt(input, st.pos);
    if IsDigit(p) || p == '.' then
      if p == '.' && hasDot then
        var r := Advanced(st);
        var value := input[start..r.pos];
        var r' := Reported(r, InvalidNumber(FileName, r.line, r.column - |value|, value));
        Scanned(TokenAt(r', UNKNOWN, value), r')
      else
        NumberLoop(input, Advanced(st), start, hasDot || p == '.')
    else
      var value := input[start..st.pos];
      if IsAlpha(p) || p == '_' then Scanned(TokenAt(st, UNKNOWN, value), st)
      else Scanned(TokenAt(st, LITERAL, value), st)
  }

  /** scanNumber, entered with the first digit already consumed. */
  function NumberScan(input: string, st: LexState): (s: Scanned)
    requires 1 <= st.pos <= |input|
    ensures st.pos <= s.after.pos <= |input|
    ensures s.token.kind == LITERAL || s.token.kind == UNKNOWN
  {
    NumberLoop(input, st, st.pos - 1, false)
  }

  /**
   * The current lexer's digit case: a number running straight into a letter or
   * an underscore is extended over the following word characters and reported
   * as one invalid identifier.
   */
  function NumberThenWord(input: string, st: LexState): (s: Scanned)
    requires 1 <= st.pos <= |input|
    ensures st.pos <= s.after.pos <= |input|
    ensures s.token.kind == LITERAL || s.token.kind == UNKNOWN
  {
    var n := NumberScan(input, st);
    var p := PeekAt(input, n.after.pos);
    if IsAlpha(p) || p == '_' then
      var r := WordScanned(input, n.after);
      var value := n.token.value + input[n.after.pos..r.pos];
      var r' := Reported(r, InvalidIdentifier(FileName, r.line, r.column - |value|, value));
      Scanned(TokenAt(r', UNKNOWN, value), r')
    else n
  }

  /** The loop of scanString: everything up to the closing quote or the end of the input. */
  function StringLoop(input: string, st: LexState): (r: LexState)
    requires st.pos <= |input|
    ensures st.pos <= r.pos <= |input|
    ensures r.log == st.log
    decreases |input| - st.pos
  {
    if st.pos >= |input| || input[st.pos] == '"' then st
    else
      var st1 := if input[st.pos] == '\n' then st.(line := st.line + 1, column := 1) else st;
      StringLoop(input, Advanced(st1))
  }

  /** scanString, entered with the opening quote already consumed. */
  function StringScan(input: string, st: LexState): (s: Scanned)
    requires 1 <= st.pos <= |input|
    ensures st.pos <= s.after.pos <= |input|
  {
    var r := StringLoop(input, st);
    var value := input[st.pos..r.pos];
    if r.pos >= |input| then
      var r' := Reported(r, UnterminatedString(FileName, st.line, st.column - 1));
      Scanned(TokenAt(r', UNKNOWN, value), r')
    else
      var r' := Advanced(r);
      Scanned(TokenAt(r', LITERAL, value), r')
  }

  /** A character no rule accepts: reported, and returned as a one-character UNKNOWN token. */
  function Unexpected(st: LexState, c: char): Scanned
  {
    var r := Reported(st, UnexpectedCharacter(FileName, st.line, st.column - 1, c));
    Scanned(TokenAt(r, UNKNOWN, [c]), r)
  }

  /**
   * scanToken at a position holding a character. `legacy` selects the older
   * lexer, which returns scanNumber's token as it is after a digit.
   */
  function TokenScanFor(input: string, keywords: set<string>, legacy: bool, st: LexState): (s: Scanned)
    requires st.pos < |input|
    ensures st.pos < s.after.pos <= |input|
    ensures s.token.kind != END_OF_FILE
  {
    var c := input[st.pos];
    var st1 := Advanced(st);
    if c in DelimiterChars then Scanned(TokenAt(st1, DELIMITER, [c]), st1)
    else if c == '.' then
      if PeekAt(input, st1.pos) == '.' then
        var st2 := Advanced(st1);
        Scanned(TokenAt(st2, OPERATOR, ".."), st2)
      else Scanned(TokenAt(st1, DELIMITER, "."), st1)
    else if c == '+' || c == '*' || c == '=' then Scanned(TokenAt(st1, OPERATOR, [c]), st1)
    else if c == '-' then
      if PeekAt(input, st1.pos) == '>' then
        var st2 := Advanced(st1);
        Scanned(TokenAt(st2, OPERATOR, "->"), st2)
      else Scanned(TokenAt(st1, OPERATOR, "-"), st1)
    else if c == '/' then
      if PeekAt(input, st1.pos) == '/' then
        var st2 := CommentSkipped(input, st1);
        Scanned(TokenAt(st2, COMMENT, ""), st2)
      else Scanned(TokenAt(st1, OPERATOR, "/"), st1)
    else if c == '"' then StringScan(input, st1)
    else if c == '@' then Unexpected(st1, c)
    else if IsAlpha(c) || c == '_' then IdentifierScan(input, keywords, st1)
    else if IsDigit(c) then
      if legacy then NumberScan(input, st1) else NumberThenWord(input, st1)
    else Unexpected(st1, c)
  }

  /** The loop of tokenize, from cursor st with the tokens acc already collected. */
  function TokenizeFrom(input: string, keywords: set<string>, legacy: bool, st: LexState, acc: seq<Token>): (r: Lexed)
    requires st.pos <= |input|
    ensures st.pos <= r.after.pos == |input|
    decreases |input| - st.pos
  {
    if st.pos >= |input| then Lexed(acc + [TokenAt(st, END_OF_FILE, "")], st)
    else
      var st1 := WhitespaceSkipped(input, st);
      if st1.pos >= |input| then Lexed(acc + [TokenAt(st1, END_OF_FILE, "")], st1)
      else
        var s := TokenScanFor(input, keywords, legacy, st1);
        TokenizeFrom(input, keywords, legacy, s.after, acc + [s.token])
  }

  /** The tokens of a whole input, scanned by a fresh lexer. */
  function Tokenization(input: string, keywords: set<string>, legacy: bool): seq<Token>
  {
    TokenizeFrom(input, keywords, legacy, Start, []).tokens
  }
}
