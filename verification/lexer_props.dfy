/**
 * What the lexer guarantees, proved about the functions of LexerSpec (and
 * so, through the method contracts of Lexing, about the `Lexer` class).
 */
module LexerProps {
  import opened Text
  import opened Tokens
  import opened Errors
  import opened LexerSpec

  /** How often c occurs in s. */
  function CountOf(s: string, c: char): nat
  {
    if s == [] then 0 else CountOf(s[..|s| - 1], c) + (if s[|s| - 1] == c then 1 else 0)
  }

  lemma CountOfSnoc(s: string, x: char, c: char)
    ensures CountOf(s + [x], c) == CountOf(s, c) + (if x == c then 1 else 0)
  {
    assert (s + [x])[..|s|] == s;
  }

  lemma {:induction false} CountOfAppend(a: string, b: string, c: char)
    ensures CountOf(a + b, c) == CountOf(a, c) + CountOf(b, c)
    decreases |b|
  {
    if b != [] {
      var b' := b[..|b| - 1];
      assert a + b == (a + b') + [b[|b| - 1]];
      assert b == b' + [b[|b| - 1]];
      CountOfAppend(a, b', c);
      CountOfSnoc(a + b', b[|b| - 1], c);
      CountOfSnoc(b', b[|b| - 1], c);
    } else {
      assert a + b == a;
    }
  }

  lemma CountOfAbsent(s: string, c: char)
    requires forall i :: 0 <= i < |s| ==> s[i] != c
    ensures CountOf(s, c) == 0
  {
    if s != [] {
      CountOfAbsent(s[..|s| - 1], c);
    }
  }

  // ------------------------------------------------------------ tokenize

  /** The tokenize loop keeps the tokens it was given and appends after them. */
  lemma {:induction false} TokenizeFromKeeps(input: string, keywords: set<string>, legacy: bool, st: LexState, acc: seq<Token>)
    requires st.pos <= |input|
    ensures var r := TokenizeFrom(input, keywords, legacy, st, acc);
      |r.tokens| > |acc| && forall i :: 0 <= i < |acc| ==> r.tokens[i] == acc[i]
    decreases |input| - st.pos
  {
    if st.pos < |input| {
      var st1 := WhitespaceSkipped(input, st);
      if st1.pos < |input| {
        var s := TokenScanFor(input, keywords, legacy, st1);
        TokenizeFromKeeps(input, keywords, legacy, s.after, acc + [s.token]);
      }
    }
  }

  /**
   * The tokens the loop adds end with one END_OF_FILE token with empty text,
   * reported at the final cursor, and no other END_OF_FILE.
   */
  lemma TokenizeFromEnds(input: string, keywords: set<string>, legacy: bool, st: LexState, acc: seq<Token>)
    requires st.pos <= |input|
    ensures var r := TokenizeFrom(input, keywords, legacy, st, acc);
      |r.tokens| > 0
      && r.tokens[|r.tokens| - 1] == TokenAt(r.after, END_OF_FILE, "")
      && forall i :: |acc| <= i < |r.tokens| - 1 ==> r.tokens[i].kind != END_OF_FILE
  {
    TokenizeFromLast(input, keywords, legacy, st, acc);
    TokenizeFromOneEof(input, keywords, legacy, st, acc);
  }

  lemma {:induction false} TokenizeFromLast(input: string, keywords: set<string>, legacy: bool, st: LexState, acc: seq<Token>)
    requires st.pos <= |input|
    ensures var r := TokenizeFrom(input, keywords, legacy, st, acc);
      |r.tokens| > 0 && r.tokens[|r.tokens| - 1] == TokenAt(r.after, END_OF_FILE, "")
    decreases |input| - st.pos
  {
    if st.pos >= |input| {
      EndsWithEof(acc, st);
    } else {
      var st1 := WhitespaceSkipped(input, st);
      if st1.pos >= |input| {
        EndsWithEof(acc, st1);
      } else {
        var s := TokenScanFor(input, keywords, legacy, st1);
        TokenizeFromLast(input, keywords, legacy, s.after, acc + [s.token]);
      }
    }
  }

  lemma {:induction false} TokenizeFromOneEof(input: string, keywords: set<string>, legacy: bool, st: LexState, acc: seq<Token>)
    requires st.pos <= |input|
    ensures var r := TokenizeFrom(input, keywords, legacy, st, acc);
      forall i :: |acc| <= i < |r.tokens| - 1 ==> r.tokens[i].kind != END_OF_FILE
    decreases |input| - st.pos
  {
    if st.pos >= |input| {
      EndsWithEof(acc, st);
    } else {
      var st1 := WhitespaceSkipped(input, st);
      if st1.pos >= |input| {
        EndsWithEof(acc, st1);
      } else {
        var s := TokenScanFor(input, keywords, legacy, st1);
        var acc' := acc + [s.token];
        TokenizeFromOneEof(input, keywords, legacy, s.after, acc');
        TokenizeFromKeeps(input, keywords, legacy, s.after, acc');
        var r := TokenizeFrom(input, keywords, legacy, s.after, acc');
        assert TokenizeFrom(input, keywords, legacy, st, acc) == r;
        forall i | |acc| <= i < |r.tokens| - 1
          ensures r.tokens[i].kind != END_OF_FILE
        {
          if i == |acc| {
            assert r.tokens[i] == acc'[|acc|] == s.token;
          }
        }
      }
    }
  }

  /** The loop's exit: the END_OF_FILE token appended to the tokens so far. */
  lemma EndsWithEof(acc: seq<Token>, st: LexState)
    ensures var ts := acc + [TokenAt(st, END_OF_FILE, "")];
      |ts| > 0 && ts[|ts| - 1] == TokenAt(st, END_OF_FILE, "")
      && forall i :: |acc| <= i < |ts| - 1 ==> ts[i].kind != END_OF_FILE
  {
  }

  /**
   * A whole input gives a non-empty token sequence whose last token is the
   * only END_OF_FILE, with empty text, reported where the input ends.
   */
  lemma TokenizationEnds(input: string, keywords: set<string>, legacy: bool)
    ensures var ts := Tokenization(input, keywords, legacy);
      |ts| > 0 && ts[|ts| - 1].kind == END_OF_FILE && ts[|ts| - 1].value == ""
      && forall i :: 0 <= i < |ts| - 1 ==> ts[i].kind != END_OF_FILE
  {
    TokenizeFromEnds(input, keywords, legacy, Start, []);
  }

  // ------------------------------------------------------- words and keywords

  lemma {:induction false} WordScannedChars(input: string, st: LexState)
    requires st.pos <= |input|
    ensures forall i :: st.pos <= i < WordScanned(input, st).pos ==> IsWordChar(input[i])
    decreases |input| - st.pos
  {
    if IsWordChar(PeekAt(input, st.pos)) {
      WordScannedChars(input, Advanced(st));
    }
  }

  /**
   * A word starting with a letter or an underscore runs over letters, digits
   * and underscores as far as they go, and is a KEYWORD exactly when it is in
   * the keyword set, an IDENTIFIER otherwise.
   */
  lemma IdentifierOrKeyword(input: string, keywords: set<string>, legacy: bool, st: LexState)
    requires st.pos < |input| && (IsAlpha(input[st.pos]) || input[st.pos] == '_')
    ensures var s := TokenScanFor(input, keywords, legacy, st);
      s.token.value == input[st.pos..s.after.pos]
      && (forall i :: st.pos <= i < s.after.pos ==> IsWordChar(input[i]))
      && (s.after.pos == |input| || !IsWordChar(input[s.after.pos]))
      && (s.token.kind == KEYWORD <==> s.token.value in keywords)
      && (s.token.kind == IDENTIFIER <==> s.token.value !in keywords)
      && s.after.log == st.log
  {
    WordScannedChars(input, Advanced(st));
  }

  /** The older keyword set is the current one without `Void`. */
  lemma LegacyKeywordsLackVoid()
    ensures LegacyKeywords == Keywords - {"Void"}
    ensures "Void" in Keywords && "Void" !in LegacyKeywords
  {
  }

  // ------------------------------------------------------ one-character lookahead

  /** `..` is one OPERATOR; a `.` not followed by another is a DELIMITER. */
  lemma DotLookahead(input: string, keywords: set<string>, legacy: bool, st: LexState)
    requires st.pos < |input| && input[st.pos] == '.'
    ensures var s := TokenScanFor(input, keywords, legacy, st);
      if st.pos + 1 < |input| && input[st.pos + 1] == '.' then
        s.token.kind == OPERATOR && s.token.value == ".." && s.after.pos == st.pos + 2
      else
        s.token.kind == DELIMITER && s.token.value == "." && s.after.pos == st.pos + 1
  {
  }

  /** `->` is one OPERATOR; a `-` not followed by `>` is the OPERATOR `-`. */
  lemma ArrowLookahead(input: string, keywords: set<string>, legacy: bool, st: LexState)
    requires st.pos < |input| && input[st.pos] == '-'
    ensures var s := TokenScanFor(input, keywords, legacy, st);
      if st.pos + 1 < |input| && input[st.pos + 1] == '>' then
        s.token.kind == OPERATOR && s.token.value == "->" && s.after.pos == st.pos + 2
      else
        s.token.kind == OPERATOR && s.token.value == "-" && s.after.pos == st.pos + 1
  {
  }

  lemma {:induction false} CommentSkippedChars(input: string, st: LexState)
    requires st.pos <= |input|
    ensures forall i :: st.pos <= i < CommentSkipped(input, st).pos ==> input[i] != '\n'
    decreases |input| - st.pos
  {
    if st.pos < |input| && input[st.pos] != '\n' {
      CommentSkippedChars(input, Advanced(st));
    }
  }

  /** skipWhitespace consumes only spaces, carriage returns, tabs and newlines. */
  lemma {:induction false} WhitespaceSkippedChars(input: string, st: LexState)
    requires st.pos <= |input|
    ensures forall i :: st.pos <= i < WhitespaceSkipped(input, st).pos ==> IsBlank(input[i])
    decreases |input| - st.pos
  {
    if st.pos < |input| && IsBlank(input[st.pos]) {
      var st1 := if input[st.pos] == '\n' then st.(line := st.line + 1, column := 1) else st;
      WhitespaceSkippedChars(input, Advanced(st1));
    }
  }

  /**
   * `//` gives a COMMENT token with empty text that consumes the rest of the
   * line up to, not including, the newline; a lone `/` is an OPERATOR.
   */
  lemma SlashLookahead(input: string, keywords: set<string>, legacy: bool, st: LexState)
    requires st.pos < |input| && input[st.pos] == '/'
    ensures var s := TokenScanFor(input, keywords, legacy, st);
      if st.pos + 1 < |input| && input[st.pos + 1] == '/' then
        s.token.kind == COMMENT && s.token.value == ""
        && st.pos + 2 <= s.after.pos
        && (forall i :: st.pos + 2 <= i < s.after.pos ==> input[i] != '\n')
        && (s.after.pos == |input| || input[s.after.pos] == '\n')
      else
        s.token.kind == OPERATOR && s.token.value == "/" && s.after.pos == st.pos + 1
  {
    if st.pos + 1 < |input| && input[st.pos + 1] == '/' {
      CommentSkippedChars(input, Advanced(st));
    }
  }

  /** The single-character delimiters and operators. */
  lemma SingleCharacterTokens(input: string, keywords: set<string>, legacy: bool, st: LexState)
    requires st.pos < |input|
    ensures var c := input[st.pos]; var s := TokenScanFor(input, keywords, legacy, st);
      (c in DelimiterChars ==> s.token.kind == DELIMITER && s.token.value == [c] && s.after.pos == st.pos + 1)
      && (c == '+' || c == '*' || c == '=' ==> s.token.kind == OPERATOR && s.token.value == [c] && s.after.pos == st.pos + 1)
  {
  }

  // ------------------------------------------------------------------ numbers

  /** After a digit, scanToken is scanNumber, followed in the current lexer by the word extension. */
  lemma DigitScan(input: string, keywords: set<string>, legacy: bool, st: LexState)
    requires st.pos < |input| && IsDigit(input[st.pos])
    ensures TokenScanFor(input, keywords, legacy, st)
         == if legacy then NumberScan(input, Advanced(st)) else NumberThenWord(input, Advanced(st))
  {
  }

  predicate IsNumberChar(c: char) { IsDigit(c) || c == '.' }

  /** The number loop's text is the run of digits and points from `start`, and its position is where that run began. */
  lemma {:induction false} NumberLoopText(input: string, st: LexState, start: nat, hasDot: bool)
    requires start < st.pos <= |input|
    requires forall i :: start <= i < st.pos ==> IsNumberChar(input[i])
    ensures var s := NumberLoop(input, st, start, hasDot); var e := s.after.pos;
      s.token.value == input[start..e]
      && (forall i :: start <= i < e ==> IsNumberChar(input[i]))
      && s.token.line == st.line && s.after.line == st.line
      && s.after.column == st.column + (e - st.pos)
      && s.token.column == st.column - (st.pos - start)
    decreases |input| - st.pos
  {
    var p := PeekAt(input, st.pos);
    if IsNumberChar(p) && !(p == '.' && hasDot) {
      NumberLoopText(input, Advanced(st), start, hasDot || p == '.');
    }
  }

  /**
   * The two ways a number ends: before a character that cannot continue it,
   * as a LITERAL (or as UNKNOWN when that character is a letter or an
   * underscore), with at most one point and no diagnostic; or at a second
   * point, included in an UNKNOWN token with an "Invalid number" diagnostic.
   */
  predicate NumberOutcome(input: string, log0: seq<Diagnostic>, s: Scanned)
  {
    var v := s.token.value;
    var p := PeekAt(input, s.after.pos);
    (s.after.log == log0 && CountOf(v, '.') <= 1 && !IsNumberChar(p)
      && (s.token.kind == LITERAL <==> !IsAlpha(p) && p != '_')
      && (s.token.kind == UNKNOWN <==> IsAlpha(p) || p == '_'))
    || (s.token.kind == UNKNOWN && CountOf(v, '.') == 2 && |v| > 0 && v[|v| - 1] == '.'
      && s.after.log == log0 + [InvalidNumber(FileName, s.after.line, s.token.column, v)])
  }

  /** How the number loop ends, from a text input[start..st.pos] holding `hasDot` points. */
  lemma {:induction false} NumberLoopEnd(input: string, st: LexState, start: nat, hasDot: bool)
    requires start < st.pos <= |input|
    requires CountOf(input[start..st.pos], '.') == (if hasDot then 1 else 0)
    ensures NumberOutcome(input, st.log, NumberLoop(input, st, start, hasDot))
    decreases |input| - st.pos
  {
    var p := PeekAt(input, st.pos);
    if IsNumberChar(p) {
      assert input[start..st.pos + 1] == input[start..st.pos] + [p];
      CountOfSnoc(input[start..st.pos], p, '.');
      if !(p == '.' && hasDot) {
        NumberLoopEnd(input, Advanced(st), start, hasDot || p == '.');
      }
    }
  }

  lemma NumberScanFacts(input: string, st: LexState)
    requires 1 <= st.pos <= |input| && IsDigit(input[st.pos - 1])
    ensures var s := NumberScan(input, st); var v := s.token.value; var e := s.after.pos;
      v == input[st.pos - 1..e]
      && (forall i :: st.pos - 1 <= i < e ==> IsNumberChar(input[i]))
      && s.token.line == st.line && s.after.line == st.line
      && s.after.column == st.column + (e - st.pos)
      && s.token.column == st.column - 1
      && CountOf(v, '.') <= 2
      && (s.token.kind == LITERAL ==>
            CountOf(v, '.') <= 1 && s.after.log == st.log
            && !IsNumberChar(PeekAt(input, e)) && !IsAlpha(PeekAt(input, e)) && PeekAt(input, e) != '_')
      && (s.token.kind == UNKNOWN && CountOf(v, '.') <= 1 ==>
            s.after.log == st.log && (IsAlpha(PeekAt(input, e)) || PeekAt(input, e) == '_'))
      && (CountOf(v, '.') == 2 ==>
            s.token.kind == UNKNOWN && v[|v| - 1] == '.'
            && s.after.log == st.log + [InvalidNumber(FileName, st.line, s.token.column, v)])
  {
    assert input[st.pos - 1..st.pos] == [input[st.pos - 1]];
    assert CountOf([input[st.pos - 1]], '.') == 0 by {
      CountOfSnoc([], input[st.pos - 1], '.');
      assert [] + [input[st.pos - 1]] == [input[st.pos - 1]];
    }
    NumberLoopText(input, st, st.pos - 1, false);
    NumberLoopEnd(input, st, st.pos - 1, false);
  }

  /**
   * A number literal is a run of digits with at most one decimal point, not
   * followed by a digit, a point, a letter or an underscore; a second point
   * ends the token as UNKNOWN with that point included and an "Invalid number"
   * diagnostic. Both lexers agree on this.
   */
  lemma NumberToken(input: string, keywords: set<string>, legacy: bool, st: LexState)
    requires st.pos < |input| && IsDigit(input[st.pos])
    ensures var s := TokenScanFor(input, keywords, legacy, st); var v := s.token.value; var e := s.after.pos;
      (s.token.kind == LITERAL ==>
        v == input[st.pos..e] && (forall i :: st.pos <= i < e ==> IsNumberChar(input[i]))
        && CountOf(v, '.') <= 1 && s.after.log == st.log
        && !IsNumberChar(PeekAt(input, e)) && !IsAlpha(PeekAt(input, e)) && PeekAt(input, e) != '_')
      && (s.token.kind == LITERAL || s.token.kind == UNKNOWN)
      && (CountOf(v, '.') == 2 && (forall i :: 0 <= i < |v| ==> IsNumberChar(v[i])) ==>
        s.token.kind == UNKNOWN && v == input[st.pos..e] && v[|v| - 1] == '.'
        && s.after.log == st.log + [Diagnostic(FileName, st.line, st.column, "Invalid number")])
  {
    DigitScan(input, keywords, legacy, st);
    var st1 := Advanced(st);
    NumberScanFacts(input, st1);
    var n := NumberScan(input, st1);
    if !legacy && (IsAlpha(PeekAt(input, n.after.pos)) || PeekAt(input, n.after.pos) == '_') {
      var r := WordScanned(input, n.after);
      assert r.pos > n.after.pos;
      assert !IsNumberChar(input[n.after.pos]);
      var v := TokenScanFor(input, keywords, legacy, st).token.value;
      assert v[|n.token.value|] == input[n.after.pos];
    }
  }

  /**
   * The current lexer: a number running straight into a letter or an
   * underscore is extended over the following letters, digits and
   * underscores into ONE UNKNOWN token, reported as an invalid identifier
   * (after the "Invalid number" diagnostic when the number met a second point).
   */
  lemma NumberThenLetter(input: string, keywords: set<string>, st: LexState)
    requires st.pos < |input| && IsDigit(input[st.pos])
    requires var n := NumberScan(input, Advanced(st));
      IsAlpha(PeekAt(input, n.after.pos)) || PeekAt(input, n.after.pos) == '_'
    ensures var s := TokenScanFor(input, keywords, false, st); var e := s.after.pos;
      var n := NumberScan(input, Advanced(st));
      s.token.kind == UNKNOWN
      && s.token.value == input[st.pos..e]
      && n.after.pos < e
      && (forall i :: st.pos <= i < e ==> IsWordChar(input[i]) || input[i] == '.')
      && (e == |input| || !IsWordChar(input[e]))
      && s.token.line == st.line && s.token.column == st.column
      && s.after.log == n.after.log + [Diagnostic(FileName, st.line, st.column, "Invalid identifier")]
  {
    DigitScan(input, keywords, false, st);
    var st1 := Advanced(st);
    NumberScanFacts(input, st1);
    var n := NumberScan(input, st1);
    WordScannedChars(input, n.after);
    var r := WordScanned(input, n.after);
    assert st.pos < n.after.pos < r.pos;
    assert input[st.pos..r.pos] == input[st.pos..n.after.pos] + input[n.after.pos..r.pos];
  }

  /**
   * The older lexer: the same input gives the number alone as an UNKNOWN
   * token, with no diagnostic unless it met a second point, and scanning
   * resumes at the letter, so the word that follows becomes a token of its own.
   */
  lemma LegacyNumberThenLetter(input: string, keywords: set<string>, st: LexState)
    requires st.pos < |input| && IsDigit(input[st.pos])
    requires var n := NumberScan(input, Advanced(st));
      IsAlpha(PeekAt(input, n.after.pos)) || PeekAt(input, n.after.pos) == '_'
    ensures var s := TokenScanFor(input, keywords, true, st); var e := s.after.pos;
      s.token.kind == UNKNOWN
      && s.token.value == input[st.pos..e]
      && (forall i :: st.pos <= i < e ==> IsNumberChar(input[i]))
      && e < |input| && (IsAlpha(input[e]) || input[e] == '_')
      && (CountOf(s.token.value, '.') <= 1 ==> s.after.log == st.log)
  {
    DigitScan(input, keywords, true, st);
    NumberScanFacts(input, Advanced(st));
  }

  // ------------------------------------------------------------------ strings

  lemma {:induction false} StringLoopStops(input: string, st: LexState)
    requires st.pos <= |input|
    ensures var r := StringLoop(input, st);
      (forall i :: st.pos <= i < r.pos ==> input[i] != '"')
      && (r.pos == |input| || input[r.pos] == '"')
    decreases |input| - st.pos
  {
    if st.pos < |input| && input[st.pos] != '"' {
      var st1 := if input[st.pos] == '\n' then st.(line := st.line + 1, column := 1) else st;
      StringLoopStops(input, Advanced(st1));
    }
  }

  lemma {:induction false} StringLoopLines(input: string, st: LexState)
    requires st.pos <= |input|
    ensures var r := StringLoop(input, st);
      r.line == st.line + CountOf(input[st.pos..r.pos], '\n')
    decreases |input| - st.pos
  {
    if st.pos < |input| && input[st.pos] != '"' {
      var st1 := if input[st.pos] == '\n' then st.(line := st.line + 1, column := 1) else st;
      StringLoopLines(input, Advanced(st1));
      var r := StringLoop(input, st);
      assert input[st.pos..r.pos] == [input[st.pos]] + input[st.pos + 1..r.pos];
      CountOfAppend([input[st.pos]], input[st.pos + 1..r.pos], '\n');
      CountOfSnoc([], input[st.pos], '\n');
      assert [] + [input[st.pos]] == [input[st.pos]];
    } else {
      assert input[st.pos..st.pos] == [];
    }
  }

  /**
   * A string literal's text is what lies between the quotes; each newline in
   * it moves the line on. Without a closing quote the token is UNKNOWN with
   * the text up to the end, reported at the opening quote.
   */
  lemma StringToken(input: string, keywords: set<string>, legacy: bool, st: LexState)
    requires st.pos < |input| && input[st.pos] == '"'
    ensures var s := TokenScanFor(input, keywords, legacy, st); var r := StringLoop(input, Advanced(st));
      s.token.value == input[st.pos + 1..r.pos]
      && (forall i :: 0 <= i < |s.token.value| ==> s.token.value[i] != '"')
      && s.token.line == st.line + CountOf(s.token.value, '\n')
      && (r.pos < |input| ==>
            s.token.kind == LITERAL && input[r.pos] == '"' && s.after.pos == r.pos + 1 && s.after.log == st.log)
      && (r.pos == |input| ==>
            s.token.kind == UNKNOWN && s.after.pos == |input|
            && s.after.log == st.log + [Diagnostic(FileName, st.line, st.column, "Unterminated string literal")])
  {
    StringLoopStops(input, Advanced(st));
    StringLoopLines(input, Advanced(st));
  }

  // --------------------------------------------------------- unexpected input

  /** The characters some rule of scanToken accepts. */
  predicate Handled(c: char)
  {
    c in DelimiterChars || c == '.' || c == '+' || c == '*' || c == '=' || c == '-' || c == '/'
    || c == '"' || IsAlpha(c) || c == '_' || IsDigit(c)
  }

  /**
   * `@` and every character no rule accepts become a one-character UNKNOWN
   * token at the character's own position, with an "Unexpected character"
   * diagnostic; scanning goes on after it.
   */
  lemma UnexpectedCharacterToken(input: string, keywords: set<string>, legacy: bool, st: LexState)
    requires st.pos < |input| && (input[st.pos] == '@' || !Handled(input[st.pos]))
    ensures var s := TokenScanFor(input, keywords, legacy, st);
      s.token == Token(UNKNOWN, [input[st.pos]], st.line, st.column)
      && s.after.pos == st.pos + 1
      && s.after.log == st.log + [Diagnostic(FileName, st.line, st.column, "Unexpected character")]
  {
  }

  // ------------------------------------------------------- lines and columns

  /**
   * The column of position pos when the input is read from its start at
   * column 1: the character after a newline is at column 2, and every other
   * character one column past its predecessor.
   */
  function ColumnAt(input: string, pos: nat): int
    requires pos <= |input|
  {
    if pos == 0 then 1 else if input[pos - 1] == '\n' then 2 else ColumnAt(input, pos - 1) + 1
  }

  /** The cursor's line and column agree with its position in the input. */
  predicate Tracks(input: string, st: LexState)
  {
    st.pos <= |input|
    && st.line == 1 + CountOf(input[..st.pos], '\n')
    && st.column == ColumnAt(input, st.pos)
  }

  lemma StartTracks(input: string)
    ensures Tracks(input, Start)
  {
    assert input[..0] == [];
  }

  /** One character consumed, with the newline bookkeeping of skipWhitespace and scanString. */
  lemma StepTracks(input: string, st: LexState)
    requires Tracks(input, st) && st.pos < |input|
    ensures var st1 := if input[st.pos] == '\n' then st.(line := st.line + 1, column := 1) else st;
      Tracks(input, Advanced(st1))
  {
    assert input[..st.pos + 1] == input[..st.pos] + [input[st.pos]];
    CountOfSnoc(input[..st.pos], input[st.pos], '\n');
  }

  lemma {:induction false} WhitespaceTracks(input: string, st: LexState)
    requires Tracks(input, st)
    ensures Tracks(input, WhitespaceSkipped(input, st))
    decreases |input| - st.pos
  {
    if st.pos < |input| && IsBlank(input[st.pos]) {
      StepTracks(input, st);
      var st1 := if input[st.pos] == '\n' then st.(line := st.line + 1, column := 1) else st;
      WhitespaceTracks(input, Advanced(st1));
    }
  }

  lemma {:induction false} CommentTracks(input: string, st: LexState)
    requires Tracks(input, st)
    ensures Tracks(input, CommentSkipped(input, st))
    decreases |input| - st.pos
  {
    if st.pos < |input| && input[st.pos] != '\n' {
      StepTracks(input, st);
      CommentTracks(input, Advanced(st));
    }
  }

  lemma {:induction false} WordTracks(input: string, st: LexState)
    requires Tracks(input, st)
    ensures Tracks(input, WordScanned(input, st))
    decreases |input| - st.pos
  {
    if IsWordChar(PeekAt(input, st.pos)) {
      StepTracks(input, st);
      WordTracks(input, Advanced(st));
    }
  }

  lemma {:induction false} NumberLoopTracks(input: string, st: LexState, start: nat, hasDot: bool)
    requires start < st.pos && Tracks(input, st)
    ensures Tracks(input, NumberLoop(input, st, start, hasDot).after)
    decreases |input| - st.pos
  {
    var p := PeekAt(input, st.pos);
    if IsDigit(p) || p == '.' {
      StepTracks(input, st);
      if !(p == '.' && hasDot) {
        NumberLoopTracks(input, Advanced(st), start, hasDot || p == '.');
      }
    }
  }

  lemma {:induction false} StringLoopTracks(input: string, st: LexState)
    requires Tracks(input, st)
    ensures Tracks(input, StringLoop(input, st))
    decreases |input| - st.pos
  {
    if st.pos < |input| && input[st.pos] != '"' {
      StepTracks(input, st);
      var st1 := if input[st.pos] == '\n' then st.(line := st.line + 1, column := 1) else st;
      StringLoopTracks(input, Advanced(st1));
    }
  }

  /**
   * After scanning from st: the cursor is still in step with its position,
   * and a token other than a string or a comment is reported at the line and
   * column of its first character.
   */
  predicate ScanTracks(input: string, st: LexState, s: Scanned)
    requires st.pos < |input|
  {
    Tracks(input, s.after)
    && (input[st.pos] != '"' && s.token.kind != COMMENT ==>
          s.token.line == st.line && s.token.column == st.column)
  }

  lemma PunctuationTracks(input: string, keywords: set<string>, legacy: bool, st: LexState)
    requires Tracks(input, st) && st.pos < |input| && input[st.pos] != '\n'
    requires var c := input[st.pos]; c != '"' && !IsAlpha(c) && c != '_' && !IsDigit(c)
    ensures ScanTracks(input, st, TokenScanFor(input, keywords, legacy, st))
  {
    var c := input[st.pos];
    StepTracks(input, st);
    var st1 := Advanced(st);
    if c == '.' || c == '-' {
      if st1.pos < |input| {
        StepTracks(input, st1);
      }
    } else if c == '/' {
      if PeekAt(input, st1.pos) == '/' {
        CommentTracks(input, st1);
      }
    }
  }

  lemma StringTracks(input: string, keywords: set<string>, legacy: bool, st: LexState)
    requires Tracks(input, st) && st.pos < |input| && input[st.pos] == '"'
    ensures ScanTracks(input, st, TokenScanFor(input, keywords, legacy, st))
  {
    StepTracks(input, st);
    var st1 := Advanced(st);
    StringLoopTracks(input, st1);
    var r := StringLoop(input, st1);
    if r.pos < |input| {
      StringLoopStops(input, st1);
      StepTracks(input, r);
    }
  }

  lemma WordTokenTracks(input: string, keywords: set<string>, legacy: bool, st: LexState)
    requires Tracks(input, st) && st.pos < |input| && (IsAlpha(input[st.pos]) || input[st.pos] == '_')
    ensures ScanTracks(input, st, TokenScanFor(input, keywords, legacy, st))
  {
    StepTracks(input, st);
    WordTracks(input, Advanced(st));
  }

  lemma NumberTokenTracks(input: string, keywords: set<string>, legacy: bool, st: LexState)
    requires Tracks(input, st) && st.pos < |input| && IsDigit(input[st.pos])
    ensures ScanTracks(input, st, TokenScanFor(input, keywords, legacy, st))
  {
    DigitScan(input, keywords, legacy, st);
    StepTracks(input, st);
    var st1 := Advanced(st);
    NumberLoopTracks(input, st1, st.pos, false);
    NumberScanFacts(input, st1);
    if !legacy {
      NumberThenWordTracks(input, st1);
    }
  }

  lemma NumberThenWordTracks(input: string, st: LexState)
    requires 1 <= st.pos <= |input| && IsDigit(input[st.pos - 1])
    requires Tracks(input, NumberScan(input, st).after)
    ensures Tracks(input, NumberThenWord(input, st).after)
  {
    var n := NumberScan(input, st);
    if IsAlpha(PeekAt(input, n.after.pos)) || PeekAt(input, n.after.pos) == '_' {
      WordTracks(input, n.after);
    }
  }

  /**
   * Scanning a token that does not start with a newline keeps the cursor's
   * line and column in step with its position, and every token other than a
   * string or a comment is reported at the line and column of its first
   * character.
   */
  lemma TokenScanTracks(input: string, keywords: set<string>, legacy: bool, st: LexState)
    requires Tracks(input, st) && st.pos < |input| && input[st.pos] != '\n'
    ensures ScanTracks(input, st, TokenScanFor(input, keywords, legacy, st))
  {
    var c := input[st.pos];
    if c == '"' {
      StringTracks(input, keywords, legacy, st);
    } else if IsAlpha(c) || c == '_' {
      WordTokenTracks(input, keywords, legacy, st);
    } else if IsDigit(c) {
      NumberTokenTracks(input, keywords, legacy, st);
    } else {
      PunctuationTracks(input, keywords, legacy, st);
    }
  }

  /**
   * From a cursor in step with its position, tokenize ends in step too: the
   * END_OF_FILE token sits one line past the last newline of the input, at
   * the column after its last character.
   */
  lemma {:induction false} TokenizeTracks(input: string, keywords: set<string>, legacy: bool, st: LexState, acc: seq<Token>)
    requires Tracks(input, st)
    ensures Tracks(input, TokenizeFrom(input, keywords, legacy, st, acc).after)
    decreases |input| - st.pos
  {
    if st.pos < |input| {
      WhitespaceTracks(input, st);
      var st1 := WhitespaceSkipped(input, st);
      if st1.pos < |input| {
        TokenScanTracks(input, keywords, legacy, st1);
        var s := TokenScanFor(input, keywords, legacy, st1);
        TokenizeTracks(input, keywords, legacy, s.after, acc + [s.token]);
      }
    }
  }

  /** The END_OF_FILE token of a whole input is at the line and column just past its end. */
  lemma EndOfFilePosition(input: string, keywords: set<string>, legacy: bool)
    ensures var ts := Tokenization(input, keywords, legacy);
      |ts| > 0
      && ts[|ts| - 1].line == 1 + CountOf(input, '\n')
      && ts[|ts| - 1].column == ColumnAt(input, |input|)
  {
    StartTracks(input);
    TokenizeTracks(input, keywords, legacy, Start, []);
    TokenizeFromEnds(input, keywords, legacy, Start, []);
    assert input[..|input|] == input;
  }
}
