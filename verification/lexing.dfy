/**
 * The lexer itself: a cursor over the input whose `position`, `line` and
 * `column` fields the scanning methods move. Every method is proved to leave
 * the cursor, and to return the token, that the matching function of
 * LexerSpec describes; the properties of those functions are in LexerProps.
 *
 * The diagnostics the lexer writes to standard error are kept as a ghost log.
 */
module Lexing {
  import opened Text
  import opened Tokens
  import opened Errors
  import opened LexerSpec

  class Lexer {
    const input: string
    /** The keyword set of the build: fifteen words, or fourteen for the older lexer. */
    const keywords: set<string>
    var position: nat
    var line: int
    var column: int
    ghost var diagnostics: seq<Diagnostic>

    /** The cursor as a value. */
    ghost function State(): LexState
      reads this
    {
      LexState(position, line, column, diagnostics)
    }

    /** A lexer for the current language: at the start of the input, line 1, column 1. */
    constructor(input: string)
      ensures this.input == input && keywords == Keywords
      ensures State() == Start
    {
      this.input := input;
      keywords := Keywords;
      position := 0;
      line := 1;
      column := 1;
      diagnostics := [];
    }

    /** A lexer of the older build, whose keyword set lacks `Void`. */
    constructor Legacy(input: string)
      ensures this.input == input && keywords == LegacyKeywords
      ensures State() == Start
    {
      this.input := input;
      keywords := LegacyKeywords;
      position := 0;
      line := 1;
      column := 1;
      diagnostics := [];
    }

    function IsAtEnd(): (b: bool)
      reads this
      ensures b <==> position >= |input|
    {
      position >= |input|
    }

    /** The character under the cursor, or NUL at the end of the input. */
    function Peek(): (c: char)
      reads this
      ensures position < |input| ==> c == input[position]
      ensures position >= |input| ==> c == '\0'
    {
      if IsAtEnd() then '\0' else input[position]
    }

    /** A token of the given kind and text whose column is where the text began on this line. */
    function CreateToken(kind: TokenType, value: string): (t: Token)
      reads this
      ensures t.kind == kind && t.value == value && t.line == line
      ensures t.column + |value| == column
    {
      Token(kind, value, line, column - |value|)
    }

    /** Consumes and returns the character under the cursor. */
    method Advance() returns (c: char)
      requires position < |input|
      modifies this
      ensures c == input[old(position)]
      ensures position == old(position) + 1 && column == old(column) + 1
      ensures line == old(line) && diagnostics == old(diagnostics)
      ensures State() == Advanced(old(State()))
    {
      position := position + 1;
      column := column + 1;
      c := input[position - 1];
    }

    method SkipWhitespace()
      requires position <= |input|
      modifies this
      ensures State() == WhitespaceSkipped(input, old(State()))
    {
      while true
        invariant position <= |input|
        invariant WhitespaceSkipped(input, State()) == WhitespaceSkipped(input, old(State()))
        decreases |input| - position
      {
        var c := Peek();
        if c == ' ' || c == '\r' || c == '\t' {
          var _ := Advance();
        } else if c == '\n' {
          line := line + 1;
          column := 1;
          var _ := Advance();
        } else {
          return;
        }
      }
    }

    method SkipComment()
      requires position <= |input|
      modifies this
      ensures State() == CommentSkipped(input, old(State()))
    {
      while Peek() != '\n' && !IsAtEnd()
        invariant position <= |input|
        invariant CommentSkipped(input, State()) == CommentSkipped(input, old(State()))
        decreases |input| - position
      {
        var _ := Advance();
      }
    }

    /** Called with the first character of the word already consumed. */
    method ScanIdentifierOrKeyword() returns (t: Token)
      requires 1 <= position <= |input|
      modifies this
      ensures Scanned(t, State()) == IdentifierScan(input, keywords, old(State()))
    {
      ghost var start := position - 1;
      var value := [input[position - 1]];
      while IsWordChar(Peek())
        invariant start < position <= |input|
        invariant value == input[start..position]
        invariant WordScanned(input, State()) == WordScanned(input, old(State()))
        invariant diagnostics == old(diagnostics)
        decreases |input| - position
      {
        var c := Advance();
        value := value + [c];
        assert value == input[start..position];
      }
      if value in keywords {
        return CreateToken(KEYWORD, value);
      }
      if !IsAlpha(value[0]) && value[0] != '_' {
        diagnostics := diagnostics + [InvalidIdentifier(FileName, line, column - |value|, value)];
        return CreateToken(UNKNOWN, value);
      }
      return CreateToken(IDENTIFIER, value);
    }

    /** Called with the first digit already consumed. */
    method ScanNumber() returns (t: Token)
      requires 1 <= position <= |input|
      modifies this
      ensures Scanned(t, State()) == NumberScan(input, old(State()))
    {
      ghost var start := position - 1;
      ghost var goal := NumberScan(input, State());
      var value := [input[position - 1]];
      var hasDecimalPoint := false;
      while IsDigit(Peek()) || Peek() == '.'
        invariant start < position <= |input|
        invariant value == input[start..position]
        invariant NumberLoop(input, State(), start, hasDecimalPoint) == goal
        decreases |input| - position
      {
        ghost var before := State();
        if Peek() == '.' {
          if hasDecimalPoint {
            var c := Advance();
            value := value + [c];
            assert value == input[start..position];
            diagnostics := diagnostics + [InvalidNumber(FileName, line, column - |value|, value)];
            t := CreateToken(UNKNOWN, value);
            assert Scanned(t, State()) == NumberLoop(input, before, start, true);
            return;
          }
          hasDecimalPoint := true;
        }
        var c := Advance();
        value := value + [c];
        assert value == input[start..position];
      }
      if IsAlpha(Peek()) || Peek() == '_' {
        return CreateToken(UNKNOWN, value);
      }
      return CreateToken(LITERAL, value);
    }

    /** Called with the opening quote already consumed. */
    method ScanString() returns (t: Token)
      requires 1 <= position <= |input|
      modifies this
      ensures Scanned(t, State()) == StringScan(input, old(State()))
    {
      var value := "";
      var startLine := line;
      var startColumn := column - 1;
      while Peek() != '"' && !IsAtEnd()
        invariant old(position) <= position <= |input|
        invariant value == input[old(position)..position]
        invariant StringLoop(input, State()) == StringLoop(input, old(State()))
        decreases |input| - position
      {
        if Peek() == '\n' {
          line := line + 1;
          column := 1;
        }
        var c := Advance();
        value := value + [c];
      }
      assert StringLoop(input, State()) == State();
      if IsAtEnd() {
        diagnostics := diagnostics + [UnterminatedString(FileName, startLine, startColumn)];
        return CreateToken(UNKNOWN, value);
      }
      var _ := Advance();
      return CreateToken(LITERAL, value);
    }

    /**
     * The digit case of the current scanToken, called with the first digit
     * consumed: a number running into a letter or an underscore is extended
     * over the following word characters into one invalid identifier.
     */
    method ScanNumberThenWord() returns (t: Token)
      requires 1 <= position <= |input|
      modifies this
      ensures Scanned(t, State()) == NumberThenWord(input, old(State()))
    {
      var numberToken := ScanNumber();
      if IsAlpha(Peek()) || Peek() == '_' {
        ghost var mid := State();
        var invalidIdentifier := numberToken.value;
        while IsWordChar(Peek())
          invariant mid.pos <= position <= |input|
          invariant invalidIdentifier == numberToken.value + input[mid.pos..position]
          invariant WordScanned(input, State()) == WordScanned(input, mid)
          invariant diagnostics == mid.log
          decreases |input| - position
        {
          var ch := Advance();
          invalidIdentifier := invalidIdentifier + [ch];
        }
        diagnostics := diagnostics + [InvalidIdentifier(FileName, line, column - |invalidIdentifier|, invalidIdentifier)];
        return CreateToken(UNKNOWN, invalidIdentifier);
      }
      return numberToken;
    }

    /** scanToken of the current lexer, called with a character left to read. */
    method ScanToken() returns (t: Token)
      requires position < |input|
      modifies this
      ensures Scanned(t, State()) == TokenScanFor(input, keywords, false, old(State()))
    {
      var c := Advance();
      if c in DelimiterChars {
        return CreateToken(DELIMITER, [c]);
      } else if c == '.' {
        if Peek() == '.' {
          var _ := Advance();
          return CreateToken(OPERATOR, "..");
        }
        return CreateToken(DELIMITER, ".");
      } else if c == '+' || c == '*' || c == '=' {
        return CreateToken(OPERATOR, [c]);
      } else if c == '-' {
        if Peek() == '>' {
          var _ := Advance();
          return CreateToken(OPERATOR, "->");
        }
        return CreateToken(OPERATOR, "-");
      } else if c == '/' {
        if Peek() == '/' {
          SkipComment();
          return CreateToken(COMMENT, "");
        }
        return CreateToken(OPERATOR, "/");
      } else if c == '"' {
        t := ScanString();
      } else if c == '@' {
        diagnostics := diagnostics + [UnexpectedCharacter(FileName, line, column - 1, c)];
        return CreateToken(UNKNOWN, [c]);
      } else if IsAlpha(c) || c == '_' {
        t := ScanIdentifierOrKeyword();
      } else if IsDigit(c) {
        t := ScanNumberThenWord();
      } else {
        diagnostics := diagnostics + [UnexpectedCharacter(FileName, line, column - 1, c)];
        return CreateToken(UNKNOWN, [c]);
      }
    }

    /** scanToken of the older lexer: a digit returns scanNumber's token as it is. */
    method ScanTokenLegacy() returns (t: Token)
      requires position < |input|
      modifies this
      ensures Scanned(t, State()) == TokenScanFor(input, keywords, true, old(State()))
    {
      var c := Advance();
      if c in DelimiterChars {
        return CreateToken(DELIMITER, [c]);
      } else if c == '.' {
        if Peek() == '.' {
          var _ := Advance();
          return CreateToken(OPERATOR, "..");
        }
        return CreateToken(DELIMITER, ".");
      } else if c == '+' || c == '*' || c == '=' {
        return CreateToken(OPERATOR, [c]);
      } else if c == '-' {
        if Peek() == '>' {
          var _ := Advance();
          return CreateToken(OPERATOR, "->");
        }
        return CreateToken(OPERATOR, "-");
      } else if c == '/' {
        if Peek() == '/' {
          SkipComment();
          return CreateToken(COMMENT, "");
        }
        return CreateToken(OPERATOR, "/");
      } else if c == '"' {
        t := ScanString();
      } else if c == '@' {
        diagnostics := diagnostics + [UnexpectedCharacter(FileName, line, column - 1, c)];
        return CreateToken(UNKNOWN, [c]);
      } else if IsAlpha(c) || c == '_' {
        t := ScanIdentifierOrKeyword();
      } else if IsDigit(c) {
        t := ScanNumber();
      } else {
        diagnostics := diagnostics + [UnexpectedCharacter(FileName, line, column - 1, c)];
        return CreateToken(UNKNOWN, [c]);
      }
    }

    /** All tokens of the rest of the input, closed by one END_OF_FILE token. */
    method Tokenize() returns (tokens: seq<Token>)
      requires position <= |input|
      modifies this
      ensures Lexed(tokens, State()) == TokenizeFrom(input, keywords, false, old(State()), [])
    {
      tokens := [];
      while !IsAtEnd()
        invariant position <= |input|
        invariant TokenizeFrom(input, keywords, false, State(), tokens)
               == TokenizeFrom(input, keywords, false, old(State()), [])
        decreases |input| - position
      {
        SkipWhitespace();
        if IsAtEnd() {
          break;
        }
        var t := ScanToken();
        tokens := tokens + [t];
      }
      tokens := tokens + [CreateToken(END_OF_FILE, "")];
    }

    /** tokenize of the older lexer. */
    method TokenizeLegacy() returns (tokens: seq<Token>)
      requires position <= |input|
      modifies this
      ensures Lexed(tokens, State()) == TokenizeFrom(input, keywords, true, old(State()), [])
    {
      tokens := [];
      while !IsAtEnd()
        invariant position <= |input|
        invariant TokenizeFrom(input, keywords, true, State(), tokens)
               == TokenizeFrom(input, keywords, true, old(State()), [])
        decreases |input| - position
      {
        SkipWhitespace();
        if IsAtEnd() {
          break;
        }
        var t := ScanTokenLegacy();
        tokens := tokens + [t];
      }
      tokens := tokens + [CreateToken(END_OF_FILE, "")];
    }
  }
}
