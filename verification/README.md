# MLang compiler core, modelled in Dafny

MLang is a three-stage toy compiler:
- a **lexer** turns source text into tokens;
- a parser builds a typed **syntax tree**, and that tree's debugging printer writes it out as indented `KIND: value` lines;
- a **code generator** reads those lines back into a generic tree and writes Python.

This project models four parts of it and proves what each one guarantees.

- **Lexer** (`Tokens`, `LexerSpec`, `Lexing`, `LexerProps`).
  - The `Lexer` class keeps the cursor fields `position`, `line` and `column` and updates them in place, as the C++ class does.
  - Its scanning loops are methods. Each is proved against a function of the input and the cursor: `WhitespaceSkipped`, `NumberScan`, `TokenScanFor`, `TokenizeFrom` and so on.
  - It comes in two builds:
    - the current lexer, with fifteen keywords, which extends a number followed by a letter into one `UNKNOWN` token;
    - the older lexer, with fourteen keywords (no `Void`), which returns the number token as it is.
  - The lemmas cover several facts:
    - token kinds and keyword classification;
    - the one-character lookahead pairs (`..`, `->`, `//`);
    - number, string and identifier boundaries;
    - the diagnostics reported;
    - the single final `END_OF_FILE` token;
    - the line and column arithmetic, including the rule that a character after a newline is at column 2.
- **Diagnostics** (`Errors`).
  - These are the message builders of `LexerError` and the `file:line:column: error: message` report line.
  - `formatMessage` is modelled as written: it appends `''` only when the token is empty.
- **Syntax tree and printer** (`Ast`).
  - The eight node classes become one datatype.
  - The `add*` appenders are methods of small classes.
  - `print` is a function returning the printed lines.
- **Code generator** (`AstReader`, `Simplifier`, `PythonGen`, `PythonGenProps`).
  - `parseASTFromFile` works over the file's lines, with its node stack kept as paths into the tree.
  - `simplifyExpression` is the identity table plus constant folding. Division truncates toward zero, and `std::stoi` reads an integer prefix.
  - `ASTPythonGenerator` is a class whose `indentLevel` field the methods raise and lower. They are proved against functions that give the text and the final level.
- **End to end** (`RoundTrip`, `Pipeline`).
  - Printing a tree and reading the lines back gives a tree of the same kinds, values and shape.
  - Every printed program of function definitions, nested definitions included, then generates Python without error and returns to indentation level 0.
  - A printed `def` line carries the function's name, its parameters as `name:  type`, and its lowercased return type.
  - An assignment of an operation on two integer literals comes out folded.

Some C++ failures are modelled as an `Err` result. `std::string` with a negative length throws `length_error`. This happens when a function definition nested in a loop sets `indentLevel` to 0 and the loop then lowers it to -1 (`PythonGenProps.DefinitionInLoopLowersLevel`); the next indented line then fails (`PythonGenProps.AssignmentAfterNegativeLevel`). The printer never writes a loop, so printed programs never reach this. `substr` throws `out_of_range` on a non-empty line made only of spaces and tabs, or on a line whose only colon is its last character. Indexing the first child of a return statement that has none is undefined behaviour.

Some behaviour of the code is easy to misread, and the model keeps it as written:
- `x + 0` is left alone. The identity table compares whole strings and matches only the literal name `a`, so only `a + 0` and its relatives are simplified (`Simplifier.NamedOperandKept`).
- A newline resets the column to 1, and the advance past the newline then adds one, so the first character of a line is at column 2 (`LexerProps.EndOfFilePosition`).
- A token's column is the cursor column minus the length of the token's text. For a string literal on one line the cursor is past both quotes while the text excludes them, so the column is two past the opening quote. A comment's text is empty, so its column is that of the comment's end (`Lexing.Lexer.CreateToken`).
- `formatMessage` appends the quoted text only when the text is empty, so a diagnostic never quotes the offending text (`Errors.FormatMessage`).

## Model

| member | source | states |
|---|---|---|
| Text.ToLowerChar | mlang_compile/src/code-generation/main.cpp:132-134 | an upper-case ASCII letter comes back as its own lower-case letter, 32 code points on; every other character is unchanged |
| Text.ToLower | mlang_compile/src/code-generation/main.cpp:132-134 | lowercasing keeps the length of the text |
| Text.ToLowerChars | mlang_compile/src/code-generation/main.cpp:151-153 | each character of the lowercased text is the lowercase of the character at the same position |
| Text.Spaces | mlang_compile/src/code-generation/main.cpp:33 | `std::string(n, ' ')` is exactly n blanks |
| Text.LeadingSpaces | mlang_compile/src/code-generation/main.cpp:317-321 | the count of leading spaces: every character before it is a space, and the one at it is not |
| Text.FindChar | mlang_compile/src/code-generation/main.cpp:328 | `find(':')` gives the first position holding the character, and nothing exactly when the character does not occur |
| Text.FindFirstNotOf | mlang_compile/src/code-generation/main.cpp:324 | the first position outside the set, with every earlier character inside it; nothing when all characters are in the set |
| Text.Find | mlang_compile/src/code-generation/main.cpp:142 | a position found leaves room for the whole pattern |
| Text.FindFirst | mlang_compile/src/code-generation/main.cpp:187 | `find(" (TYPE:")` gives the first occurrence of the pattern, and nothing only when it occurs nowhere |
| Text.TruncDiv | mlang_compile/src/code-generation/main.cpp:71 | int division truncates toward zero: the quotient's magnitude is the number of whole times |b| fits into |a|, and it is non-negative when the signs agree and non-positive when they differ |
| Text.NatToString | mlang_compile/src/code-generation/main.cpp:65 | decimal text of a natural number: non-empty, all digits |
| Text.IntToString | mlang_compile/src/code-generation/main.cpp:65 | `std::to_string`: non-empty digits with at most a leading minus |
| Text.Stoi | mlang_compile/src/code-generation/main.cpp:62-63 | `std::stoi` succeeds only when the text holds a digit, and its value is in the int range |
| Text.DigitsValueOfNat | mlang_compile/src/code-generation/main.cpp:65 | the digits written for n have the value n |
| Text.StoiOfIntToString | mlang_compile/src/code-generation/main.cpp:62-65 | `std::stoi` reads back exactly what `std::to_string` writes, for every int |
| Text.StoiOfNatToString | mlang_compile/src/code-generation/main.cpp:62-65 | the round trip for non-negative values |
| Text.StoiOfNegative | mlang_compile/src/code-generation/main.cpp:62-65 | the round trip for negative values, read through the minus sign |
| Text.DigitRunThen | mlang_compile/src/code-generation/main.cpp:62 | the digit run of a number followed by a non-digit ends where the digits end |
| Text.StoiOfPrefix | mlang_compile/src/code-generation/main.cpp:62 | `std::stoi` reads a number's digits and ignores any text after them |
| Text.WordsOfWordThen | mlang_compile/src/code-generation/main.cpp:53-56 | a whitespace-free word followed by whitespace or the end is the first token extracted |
| Text.WordLengthOf | mlang_compile/src/code-generation/main.cpp:53-56 | a token extends exactly to the next whitespace |
| Text.WordsOfWord | mlang_compile/src/code-generation/main.cpp:53-56 | a single word reads as one token |
| Text.WordsAfterSpace | mlang_compile/src/code-generation/main.cpp:53-56 | leading whitespace yields no token |
| Text.WordsOfWordThenSpace | mlang_compile/src/code-generation/main.cpp:53-56 | a word, a blank and a rest read as the word and then the rest's tokens |
| Text.WordsOfThree | mlang_compile/src/code-generation/main.cpp:53-56 | three words joined by single blanks read back as those three tokens |
| Tokens.TokenTypeToString | mlang_compile/src/lexical-analysis/lexer/lexer.cpp:185-197 | the name of each of the eight kinds reads back as that kind |
| Tokens.TokenTypeNamesDistinct | mlang_compile/src/lexical-analysis/lexer/lexer.cpp:185-197 | two kinds have the same name exactly when they are the same kind |
| Errors.Report | mlang_compile/src/errors.cpp:5-7 | the report line starts with the file name and a colon and ends with the message |
| Errors.NoColonInInt | mlang_compile/src/errors.cpp:6 | a printed line or column number never contains a colon |
| Errors.ReportRoundTrip | mlang_compile/src/errors.cpp:5-7 | for a colon-free file name and int line and column, the four fields can be recovered from the report line |
| Errors.ParseReportOf | mlang_compile/src/errors.cpp:6 | a line written as `f:l:c: error: m` splits back into its fields |
| Errors.SplitAtColonOf | mlang_compile/src/errors.cpp:6 | splitting at the first colon recovers a colon-free prefix |
| Errors.FormatMessage | mlang_compile/src/errors.cpp:9-16 | the message is unchanged when the token is non-empty; `''` is appended only when the token is empty (the inverted check) |
| Errors.UnexpectedCharacter | mlang_compile/src/errors.cpp:18-20 | always the plain message "Unexpected character", at the given file, line and column |
| Errors.UnterminatedString | mlang_compile/src/errors.cpp:22-24 | always "Unterminated string literal", at the given position |
| Errors.InvalidNumber | mlang_compile/src/errors.cpp:26-28 | "Invalid number" without the text for a non-empty number, `''` appended for an empty one |
| Errors.InvalidIdentifier | mlang_compile/src/errors.cpp:30-31 | "Invalid identifier" without the text for a non-empty identifier, `''` appended for an empty one |
| LexerSpec.WhitespaceSkipped | mlang_compile/src/lexical-analysis/lexer/lexer.cpp:163-179 | skipping stops at the end or at a character that is not a blank, never moves back, and reports nothing; what it skips is fixed by LexerProps.WhitespaceSkippedChars |
| LexerSpec.CommentSkipped | mlang_compile/src/lexical-analysis/lexer/lexer.cpp:181-183 | a comment runs to the end or to the next newline, which is not consumed; the column advances by the characters consumed and the line stays |
| LexerSpec.WordScanned | mlang_compile/src/lexical-analysis/lexer/lexer.cpp:98-100 | the word loop stops at the end or at a character that is neither alphanumeric nor `_`, on the same line |
| LexerSpec.NumberLoop | mlang_compile/src/lexical-analysis/lexer/lexer.cpp:119-129 | the number loop never moves back and yields a LITERAL or an UNKNOWN token |
| LexerSpec.NumberScan | mlang_compile/src/lexical-analysis/lexer/lexer.cpp:114-137 | scanNumber yields a LITERAL or an UNKNOWN token and never moves back |
| LexerSpec.NumberThenWord | mlang_compile/src/lexical-analysis/lexer/lexer.cpp:74-85 | a number with its trailing-letter extension is a LITERAL or an UNKNOWN token |
| LexerSpec.StringLoop | mlang_compile/src/lexical-analysis/lexer/lexer.cpp:145-151 | the string loop never moves back and reports nothing |
| LexerSpec.StringScan | mlang_compile/src/lexical-analysis/lexer/lexer.cpp:140-160 | scanString never moves the cursor back |
| LexerSpec.TokenScanFor | mlang_compile/src/lexical-analysis/lexer/lexer.cpp:42-92 | every scanToken consumes at least one character, stays within the input and never yields END_OF_FILE |
| LexerSpec.TokenizeFrom | mlang_compile/src/lexical-analysis/lexer/lexer.cpp:12-21 | the tokenize loop ends with the cursor at the end of the input |
| Lexing.Lexer.constructor | mlang_compile/src/lexical-analysis/lexer/lexer.cpp:10 | a new lexer holds the input and the fifteen keywords, at position 0, line 1, column 1, with no diagnostics |
| Lexing.Lexer.Legacy | mlang_compile/src/lexer.cpp:10 | the older lexer starts the same way with its fourteen keywords |
| Lexing.Lexer.IsAtEnd | mlang_compile/src/lexical-analysis/lexer/lexer.cpp:34-36 | true exactly when the position has reached the input length |
| Lexing.Lexer.Peek | mlang_compile/src/lexical-analysis/lexer/lexer.cpp:23-26 | the character under the cursor, NUL at the end of the input |
| Lexing.Lexer.CreateToken | mlang_compile/src/lexical-analysis/lexer/lexer.cpp:38-40 | the token carries the kind, the text and the line, and its column plus its text length is the cursor column |
| Lexing.Lexer.Advance | mlang_compile/src/lexical-analysis/lexer/lexer.cpp:28-32 | returns the character at the old position; position and column move by one; line and diagnostics are unchanged |
| Lexing.Lexer.SkipWhitespace | mlang_compile/src/lexical-analysis/lexer/lexer.cpp:163-179 | the new cursor is WhitespaceSkipped of the old one |
| Lexing.Lexer.SkipComment | mlang_compile/src/lexical-analysis/lexer/lexer.cpp:181-183 | the new cursor is CommentSkipped of the old one |
| Lexing.Lexer.ScanIdentifierOrKeyword | mlang_compile/src/lexical-analysis/lexer/lexer.cpp:94-112 | token and new cursor are the word scan's (classification in LexerProps.IdentifierOrKeyword) |
| Lexing.Lexer.ScanNumber | mlang_compile/src/lexical-analysis/lexer/lexer.cpp:114-137 | token and new cursor are NumberScan's (facts in LexerProps.NumberScanFacts) |
| Lexing.Lexer.ScanString | mlang_compile/src/lexical-analysis/lexer/lexer.cpp:140-160 | token and new cursor are StringScan's (facts in LexerProps.StringToken) |
| Lexing.Lexer.ScanNumberThenWord | mlang_compile/src/lexical-analysis/lexer/lexer.cpp:74-85 | the digit case of scanToken: token and cursor are NumberThenWord's |
| Lexing.Lexer.ScanToken | mlang_compile/src/lexical-analysis/lexer/lexer.cpp:42-92 | token and new cursor are TokenScanFor's for the current build |
| Lexing.Lexer.ScanTokenLegacy | mlang_compile/src/lexer.cpp:42-79 | token and new cursor are TokenScanFor's for the older build |
| Lexing.Lexer.Tokenize | mlang_compile/src/lexical-analysis/lexer/lexer.cpp:12-21 | the tokens and final cursor are TokenizeFrom's from the lexer's cursor |
| Lexing.Lexer.TokenizeLegacy | mlang_compile/src/lexer.cpp:12-21 | the same for the older build |
| LexerProps.TokenizeFromKeeps | mlang_compile/src/lexical-analysis/lexer/lexer.cpp:12-21 | the loop only appends: tokens pushed earlier stay, and at least one is added |
| LexerProps.TokenizeFromEnds | mlang_compile/src/lexical-analysis/lexer/lexer.cpp:12-21 | the last token is END_OF_FILE with empty text at the final cursor, and no earlier new token is END_OF_FILE |
| LexerProps.TokenizeFromLast | mlang_compile/src/lexical-analysis/lexer/lexer.cpp:19 | the last token is the empty END_OF_FILE token built at the final cursor |
| LexerProps.TokenizeFromOneEof | mlang_compile/src/lexical-analysis/lexer/lexer.cpp:14-18 | no token scanned in the loop is END_OF_FILE |
| LexerProps.TokenizationEnds | mlang_compile/src/lexical-analysis/lexer/lexer.cpp:12-21 | for both builds the token list is non-empty, ends in an empty END_OF_FILE, and that is its only END_OF_FILE |
| LexerProps.WordScannedChars | mlang_compile/src/lexical-analysis/lexer/lexer.cpp:98-100 | every character the word loop consumes is alphanumeric or `_` |
| LexerProps.IdentifierOrKeyword | mlang_compile/src/lexical-analysis/lexer/lexer.cpp:94-111 | a word starting with a letter or `_` spans the longest run of word characters; it is KEYWORD exactly when in the keyword set, IDENTIFIER exactly otherwise, with no diagnostic |
| LexerProps.LegacyKeywordsLackVoid | mlang_compile/src/lexer.cpp:5-8 | the older keyword set is the current one without `Void` |
| LexerProps.DotLookahead | mlang_compile/src/lexical-analysis/lexer/lexer.cpp:48-53 | `..` is one OPERATOR over two characters, and a lone `.` is a DELIMITER |
| LexerProps.ArrowLookahead | mlang_compile/src/lexical-analysis/lexer/lexer.cpp:56-61 | `->` is one OPERATOR over two characters, and a lone `-` is OPERATOR `-` |
| LexerProps.WhitespaceSkippedChars | mlang_compile/src/lexical-analysis/lexer/lexer.cpp:163-179 | every skipped character is a space, carriage return, tab or newline |
| LexerProps.CommentSkippedChars | mlang_compile/src/lexical-analysis/lexer/lexer.cpp:181-183 | a skipped comment contains no newline |
| LexerProps.SlashLookahead | mlang_compile/src/lexical-analysis/lexer/lexer.cpp:62-67 | `//` gives an empty COMMENT that consumes up to, not including, the next newline; otherwise `/` is an OPERATOR |
| LexerProps.SingleCharacterTokens | mlang_compile/src/lexical-analysis/lexer/lexer.cpp:45-55 | `( ) { } [ ] , : ; < >` are one-character DELIMITERs, and `+ * =` one-character OPERATORs |
| LexerProps.DigitScan | mlang_compile/src/lexical-analysis/lexer/lexer.cpp:74-86 | after a digit the current build extends the number, while the older one returns scanNumber's token directly |
| LexerProps.NumberLoopText | mlang_compile/src/lexical-analysis/lexer/lexer.cpp:119-129 | the number's text is exactly the consumed digits and points, on one line, with the column arithmetic of createToken |
| LexerProps.NumberLoopEnd | mlang_compile/src/lexical-analysis/lexer/lexer.cpp:119-134 | the loop ends either with at most one point before a non-number character (LITERAL unless a letter or `_` follows), or on a second point with UNKNOWN and an "Invalid number" diagnostic |
| LexerProps.NumberScanFacts | mlang_compile/src/lexical-analysis/lexer/lexer.cpp:114-137 | scanNumber's text starts at the digit; a LITERAL has at most one point and no letter after it; a second point yields UNKNOWN ending in that point, with an "Invalid number" diagnostic |
| LexerProps.NumberToken | mlang_compile/src/lexical-analysis/lexer/lexer.cpp:74-86 | a number token is LITERAL or UNKNOWN; a LITERAL is digits with at most one point, followed by neither a number character nor a letter |
| LexerProps.NumberThenLetter | mlang_compile/src/lexical-analysis/lexer/lexer.cpp:74-84 | a number followed by a letter or `_` becomes one UNKNOWN token over the number and the following word characters, with an "Invalid identifier" diagnostic at its start |
| LexerProps.LegacyNumberThenLetter | mlang_compile/src/lexer.cpp:74 | in the older build scanNumber's token is returned as it is: UNKNOWN over the digits and points only, ending right before the letter or `_`, which is left for the next token |
| LexerProps.StringLoopStops | mlang_compile/src/lexical-analysis/lexer/lexer.cpp:145-151 | the string body holds no quote and ends at a quote or at the end of the input |
| LexerProps.StringLoopLines | mlang_compile/src/lexical-analysis/lexer/lexer.cpp:145-151 | the line count grows by the number of newlines in the string body |
| LexerProps.StringToken | mlang_compile/src/lexical-analysis/lexer/lexer.cpp:140-160 | a string token's text excludes the quotes; closed it is a LITERAL past the closing quote; unclosed it is UNKNOWN with the partial text and an "Unterminated string literal" diagnostic at the opening quote |
| LexerProps.UnexpectedCharacterToken | mlang_compile/src/lexical-analysis/lexer/lexer.cpp:69-88 | `@` and every character no rule handles become a one-character UNKNOWN token at its own position, with an "Unexpected character" diagnostic, and scanning goes on |
| LexerProps.StartTracks | mlang_compile/src/lexical-analysis/lexer/lexer.cpp:10 | a fresh cursor agrees with its position: line 1, column 1 |
| LexerProps.StepTracks | mlang_compile/src/lexical-analysis/lexer/lexer.cpp:170-174 | consuming one character, with the newline reset to column 1 before the advance, keeps line and column in agreement with the position |
| LexerProps.WhitespaceTracks | mlang_compile/src/lexical-analysis/lexer/lexer.cpp:163-179 | skipping whitespace keeps line and column in agreement with the position |
| LexerProps.CommentTracks | mlang_compile/src/lexical-analysis/lexer/lexer.cpp:181-183 | skipping a comment keeps them in agreement |
| LexerProps.WordTracks | mlang_compile/src/lexical-analysis/lexer/lexer.cpp:98-100 | the word loop keeps them in agreement |
| LexerProps.NumberLoopTracks | mlang_compile/src/lexical-analysis/lexer/lexer.cpp:119-129 | the number loop keeps them in agreement |
| LexerProps.StringLoopTracks | mlang_compile/src/lexical-analysis/lexer/lexer.cpp:145-151 | the string loop, which bumps the line on newlines, keeps them in agreement |
| LexerProps.PunctuationTracks | mlang_compile/src/lexical-analysis/lexer/lexer.cpp:45-71 | punctuation tokens keep the cursor in agreement and are stamped with their first character's line and column |
| LexerProps.StringTracks | mlang_compile/src/lexical-analysis/lexer/lexer.cpp:140-160 | a string token keeps the cursor in agreement |
| LexerProps.WordTokenTracks | mlang_compile/src/lexical-analysis/lexer/lexer.cpp:94-111 | an identifier or keyword is stamped with its first character's position |
| LexerProps.NumberTokenTracks | mlang_compile/src/lexical-analysis/lexer/lexer.cpp:74-86 | a number token, extended or not, is stamped with its first character's position |
| LexerProps.NumberThenWordTracks | mlang_compile/src/lexical-analysis/lexer/lexer.cpp:76-84 | the trailing-letter extension keeps the cursor in agreement |
| LexerProps.TokenScanTracks | mlang_compile/src/lexical-analysis/lexer/lexer.cpp:42-92 | every scanToken keeps the cursor in agreement, and every token other than strings and comments is stamped with its first character's position |
| LexerProps.TokenizeTracks | mlang_compile/src/lexical-analysis/lexer/lexer.cpp:12-21 | the whole tokenize loop keeps line and column in agreement with the position |
| LexerProps.EndOfFilePosition | mlang_compile/src/lexical-analysis/lexer/lexer.cpp:19 | END_OF_FILE is on line 1 plus the number of newlines, at the column reached by counting from 2 after the last newline |
| Ast.EmitAllAppend | mlang_compile/src/ast/ast-generation/ast.cpp:85-91 | printing a list in turn is printing each part in turn |
| Ast.LayoutsAppend | mlang_compile/src/ast/ast-generation/ast.cpp:80-83 | the outlines of appended nodes are the appended outlines |
| Ast.EmitIndentation | mlang_compile/src/ast/ast-generation/ast.cpp:106-246 | a node prints its own line at its indentation, and every line below it at least two spaces deeper |
| Ast.EmitAllIndentation | mlang_compile/src/ast/ast-generation/ast.cpp:85-91 | every line of a list printed at n is indented by at least n |
| Ast.LiteralPrintsOneLine | mlang_compile/src/ast/ast-generation/ast.cpp:203-206 | a literal prints exactly one `LITERAL_VALUE: v` line |
| Ast.FunctionCallArguments | mlang_compile/src/ast/ast-generation/ast.cpp:181-192 | a call prints its line, and an ARGUMENTS line with the arguments four spaces deeper only when it has arguments |
| Ast.BinaryOperatorPreOrder | mlang_compile/src/ast/ast-generation/ast.cpp:241-246 | an operator prints in pre-order: its line, then the left and the right operand two spaces deeper |
| Ast.BlockLines | mlang_compile/src/ast/ast-generation/ast.cpp:135-142 | a block prints FUNCTION_BODY, then each statement in order two spaces deeper |
| Ast.AssignmentLines | mlang_compile/src/ast/ast-generation/ast.cpp:219-228 | an assignment prints its line, IDENTIFIER and EXPRESSION two spaces deeper, and the expression, when present, four spaces deeper |
| Ast.VariableDeclarationLines | mlang_compile/src/ast/ast-generation/ast.cpp:156-164 | a declaration prints its line, `IDENTIFIER: name (TYPE: type)` two spaces deeper, and the initializer, when present, two spaces deeper |
| Ast.FunctionDefinitionLines | mlang_compile/src/ast/ast-generation/ast.cpp:106-120 | a function prints the definition line, then name, return type and PARAMETERS two deeper, then one PARAMETER line per parameter four deeper, then the body (if any) two deeper |
| Ast.DefinitionParts | mlang_compile/src/ast/ast-generation/ast.cpp:106-120 | the definition's line followed by its header lines, parameter lines and body |
| Ast.EmitOptional | mlang_compile/src/ast/ast-generation/ast.cpp:116-119 | a missing body prints nothing, a present one prints as itself |
| Ast.FunctionHeaderLines | mlang_compile/src/ast/ast-generation/ast.cpp:109-115 | the header lines are name, return type, PARAMETERS, then the parameter lines two deeper |
| Ast.ParameterLinesOf | mlang_compile/src/ast/ast-generation/ast.cpp:112-115 | one `PARAMETER: p (TYPE: t)` line per parameter, in order |
| Ast.ProgramNode.constructor | mlang_compile/src/ast/ast-generation/ast.cpp:75-78 | a new program has no functions |
| Ast.ProgramNode.AddFunction | mlang_compile/src/ast/ast-generation/ast.cpp:80-83 | appends at the end, so the program prints as before followed by the new function |
| Ast.BlockNode.constructor | mlang_compile/src/ast/ast-generation/ast.cpp:125-128 | a new block has no statements |
| Ast.BlockNode.AddStatement | mlang_compile/src/ast/ast-generation/ast.cpp:130-133 | appends at the end, so the block prints as before followed by the new statement two spaces deeper |
| Ast.FunctionCallNode.constructor | mlang_compile/src/ast/ast-generation/ast.cpp:174 | a new call has its callee and no arguments |
| Ast.FunctionCallNode.AddArgument | mlang_compile/src/ast/ast-generation/ast.cpp:176-179 | appends at the end; the printed call gains the argument's lines four deeper, after a new ARGUMENTS line when it is the first argument |
| AstReader.ParseLine | mlang_compile/src/code-generation/main.cpp:314-337 | a non-empty line gives a childless node at level (leading spaces)/2 with a colon-free kind; an empty line is skipped, and only an empty line is |
| AstReader.ParseLineFails | mlang_compile/src/code-generation/main.cpp:324-332 | reading a line fails exactly when it is non-empty and either all blanks or has its only colon last |
| AstReader.PopWhile | mlang_compile/src/code-generation/main.cpp:339-343 | popping leaves a prefix of the stack, lowers the previous level by the number popped, pops nothing when the level rises, and otherwise leaves the previous level at level-1 |
| AstReader.AppendAt | mlang_compile/src/code-generation/main.cpp:347 | appending a child keeps the root's kind and value and adds one child where the path ends |
| AstReader.AppendKeepsPath | mlang_compile/src/code-generation/main.cpp:347 | appending anywhere keeps every existing node reachable where it was |
| AstReader.AppendedPath | mlang_compile/src/code-generation/main.cpp:347-349 | the appended node is reachable as the parent's new last child |
| AstReader.StepValid | mlang_compile/src/code-generation/main.cpp:339-350 | after each line every stack entry still points at a node of the tree |
| AstReader.ReadFromValid | mlang_compile/src/code-generation/main.cpp:312-351 | the stack stays valid over the whole file |
| AstReader.ReadLine | mlang_compile/src/code-generation/main.cpp:317-337 | the line-parsing loop gives the entry ParseLine describes, or its error |
| AstReader.ParseASTFromLines | mlang_compile/src/code-generation/main.cpp:296-355 | the stack algorithm returns the ROOT tree ReadLines describes, or the error of the first bad line |
| RoundTrip.LeadingSpacesOf | mlang_compile/src/code-generation/main.cpp:317-321 | n printed blanks before a non-blank count as n |
| RoundTrip.FirstNonBlankOf | mlang_compile/src/code-generation/main.cpp:324 | the text after n printed blanks starts at n |
| RoundTrip.ParseIndentedKind | mlang_compile/src/code-generation/main.cpp:336 | a printed line without a colon reads as its kind with an empty value |
| RoundTrip.ParseIndentedPair | mlang_compile/src/code-generation/main.cpp:332 | a printed `kind: value` line reads as that kind and value |
| RoundTrip.ColonSplit | mlang_compile/src/code-generation/main.cpp:328-332 | the first colon of `kind: value` is the one after the colon-free kind |
| RoundTrip.ParseLineOf | mlang_compile/src/code-generation/main.cpp:317-337 | every line the printer writes at 2*level spaces reads back as a childless node of the same kind and value at that level |
| RoundTrip.ParseValueLine | mlang_compile/src/code-generation/main.cpp:332 | a printed line with a value reads back with that value |
| RoundTrip.ReadEntry | mlang_compile/src/code-generation/main.cpp:312-351 | reading a parsed line is one step of the stack algorithm |
| RoundTrip.StepOnSpine | mlang_compile/src/code-generation/main.cpp:339-350 | when the level rises by at most one, the new node becomes the last child of the latest node one level up (of ROOT at level 0), and the stack is that node's ancestors |
| RoundTrip.StepOutline | mlang_compile/src/code-generation/main.cpp:312-351 | reading one printed node's lines adds that whole node as the last child at its level |
| RoundTrip.StepOutlines | mlang_compile/src/code-generation/main.cpp:312-351 | reading a printed list adds the list's nodes, in order, at that level |
| RoundTrip.LayoutGood | mlang_compile/src/ast/ast-generation/ast.cpp:106-246 | every kind the printer writes is non-empty, colon-free and starts with no blank |
| RoundTrip.StartOnSpine | mlang_compile/src/code-generation/main.cpp:305-310 | the reader starts with ROOT alone on the stack and previous level -1 |
| RoundTrip.PrintThenRead | mlang_compile/src/code-generation/main.cpp:296-355 | reading a printed program back gives ROOT with the functions' trees: same kinds, values and shape |
| RoundTrip.PrintNodeThenRead | mlang_compile/src/ast/ast-generation/ast.cpp:106-246 | reading one printed node back gives ROOT with that node's tree |
| Simplifier.Tokenize | mlang_compile/src/code-generation/main.cpp:49-56 | the `iss >> token` loop yields the whitespace-separated tokens of the text, in order |
| Simplifier.SimplifyExpression | mlang_compile/src/code-generation/main.cpp:36-80 | the method returns what the identity table and folder give (properties below) |
| Simplifier.IdentityTable | mlang_compile/src/code-generation/main.cpp:39-46 | `0 + 0` becomes `0`; `a + 0`, `0 + a`, `a * 1` and `1 * a` become `a`; `a * 0` and `0 * a` become `0` |
| Simplifier.IdentityStrings | mlang_compile/src/code-generation/main.cpp:39-46 | the identity table fires on those seven whole strings and no others |
| Simplifier.IdentityShape | mlang_compile/src/code-generation/main.cpp:39-56 | a string the identity table matches is three one-character tokens |
| Simplifier.LiteralOperation | mlang_compile/src/code-generation/main.cpp:53-63 | two int literals around an operator read as three tokens whose operands `std::stoi` gives back; of the table only `0 + 0` matches them |
| Simplifier.FoldConstants | mlang_compile/src/code-generation/main.cpp:58-71 | `l op r` of int literals becomes the literal of the result, with division truncating toward zero |
| Simplifier.FractionalOperandTruncated | mlang_compile/src/code-generation/main.cpp:62-65 | an operand with a fractional part folds by its integer prefix: `3.5 + 1` becomes `4` |
| Simplifier.FractionalFolds | mlang_compile/src/code-generation/main.cpp:58-65 | the folder gives 4 for `3.5 + 1` |
| Simplifier.FractionalTokens | mlang_compile/src/code-generation/main.cpp:53-63 | `3.5 + 1` is three tokens whose operands read as 3 and 1 |
| Simplifier.DivisionByZeroKept | mlang_compile/src/code-generation/main.cpp:70 | a division by the literal zero is returned unchanged |
| Simplifier.StoiOfName | mlang_compile/src/code-generation/main.cpp:62-63 | a token starting with a letter makes `std::stoi` throw, which the folder catches |
| Simplifier.NamedOperandKept | mlang_compile/src/code-generation/main.cpp:36-79 | an operation with a named operand other than `a` comes back unchanged, so `x + 0` is not simplified |
| Simplifier.SimplifyIdempotent | mlang_compile/src/code-generation/main.cpp:36-80 | simplifying twice gives what simplifying once does |
| PythonGen.LastOf | mlang_compile/src/code-generation/main.cpp:123-135 | the child found has the requested kind and is among the children; nothing is found only when no child has that kind |
| PythonGen.LastOfIsLast | mlang_compile/src/code-generation/main.cpp:123-135 | a loop that assigns on every match keeps the last child of that kind: no later child has it |
| PythonGen.ForLoopOutcome | mlang_compile/src/code-generation/main.cpp:200-220 | with a variable and both bounds, the loop writes its header at the current indentation, then its bodies one level deeper, then lowers the level |
| PythonGen.AllErrorPersists | mlang_compile/src/code-generation/main.cpp:108-111 | once a child's generation fails, the whole walk fails with that error |
| PythonGen.BodiesErrorPersists | mlang_compile/src/code-generation/main.cpp:166-172 | once a body's generation fails, the definition fails with that error |
| PythonGen.Generator.constructor | mlang_compile/src/code-generation/main.cpp:30 | a new generator starts at indentation level 0 |
| PythonGen.Generator.GetIndent | mlang_compile/src/code-generation/main.cpp:31-34 | four blanks per level; a negative level fails as `std::string`'s length_error |
| PythonGen.Generator.Join | mlang_compile/src/code-generation/main.cpp:283-293 | the join loop returns Joined: the elements with one delimiter between neighbours, empty for an empty list |
| PythonGen.Generator.GenerateExpression | mlang_compile/src/code-generation/main.cpp:223-247 | the walk returns GenExpression: EXPRESSION concatenates its children; a two-child OPERATOR simplifies `l op r`; literals and identifiers give their value; everything else gives nothing |
| PythonGen.Generator.GenerateAssignment | mlang_compile/src/code-generation/main.cpp:249-273 | the assignment is written only when both target and value are non-empty, as `indent x = simplify(v)` |
| PythonGen.Generator.GenerateReturnStatement | mlang_compile/src/code-generation/main.cpp:275-281 | `indent return simplify(e)` from the first child; with no child the access fails |
| PythonGen.Generator.GeneratePython | mlang_compile/src/code-generation/main.cpp:83-115 | the text and final level are GenPython's from the old level; after a function definition the level is 0 |
| PythonGen.Generator.GenerateProgram | mlang_compile/src/code-generation/main.cpp:377-384 | `main`'s loop: each FUNCTION_DEFINITION child of the root through generatePython, in order, each followed by a blank line; the text and final level are GenDriver's |
| PythonGen.Generator.GenerateChildren | mlang_compile/src/code-generation/main.cpp:106-112 | the children are generated in order, each from the level the previous one left |
| PythonGen.Generator.GenerateLoopBodies | mlang_compile/src/code-generation/main.cpp:208-217 | the children of every LOOP_BODY child, in order |
| PythonGen.Generator.GenerateFunctionBodies | mlang_compile/src/code-generation/main.cpp:166-172 | every FUNCTION_BODY child, in order |
| PythonGen.Generator.ParamEntry | mlang_compile/src/code-generation/main.cpp:140-159 | one parameter's text: `name: type` with the type lowercased and the closing parenthesis dropped, or the value as it is without the marker |
| PythonGen.Generator.HeaderParts | mlang_compile/src/code-generation/main.cpp:123-162 | the last name, the last return type lowercased, and the parameters of every PARAMETERS child in order |
| PythonGen.Generator.ParamEntries | mlang_compile/src/code-generation/main.cpp:138-160 | the parameter texts of one PARAMETERS node, in order |
| PythonGen.Generator.GenerateFunctionDefinition | mlang_compile/src/code-generation/main.cpp:117-175 | the `def` line at the current indentation, then the bodies one level deeper, and the level lowered again |
| PythonGen.Generator.LoopParts | mlang_compile/src/code-generation/main.cpp:182-198 | the loop variable without its type suffix and the two bounds, each from the last child of its kind |
| PythonGen.Generator.GenerateForLoop | mlang_compile/src/code-generation/main.cpp:177-221 | nothing when a part is missing; otherwise the `for v in range(s, e):` line and the body one level deeper, with the level restored |
| PythonGen.Generator.BoundText | mlang_compile/src/code-generation/main.cpp:192 | a bound is the text after the first colon of a value naming LITERAL_VALUE, else the first child's value, else nothing |
| PythonGenProps.StatementBalanced | mlang_compile/src/code-generation/main.cpp:83-115 | a statement holding no function definition (and no empty return) generates without error and ends at the level it started from |
| PythonGenProps.StatementsBalanced | mlang_compile/src/code-generation/main.cpp:106-112 | the same for a list of such statements |
| PythonGenProps.BodiesBalanced | mlang_compile/src/code-generation/main.cpp:208-217 | the same for the bodies of a loop or a definition |
| PythonGenProps.DefinitionGenerates | mlang_compile/src/code-generation/main.cpp:89-93 | a definition with well-formed bodies generates, starts with its `def` line at the current indentation, and leaves the level at 0 |
| PythonGenProps.ProgramGenerates | mlang_compile/src/code-generation/main.cpp:83-115 | a sequence of such statements and definitions generates from level 0 without error and ends at level 0 |
| PythonGenProps.RootGenerates | mlang_compile/src/code-generation/main.cpp:106-112 | the ROOT node is generated as its children, without error, back at level 0 |
| PythonGenProps.MarkerAfterName | mlang_compile/src/code-generation/main.cpp:142 | in `name (TYPE: T)` with a blank-free name, the marker is found right after the name |
| PythonGenProps.ParamOfTyped | mlang_compile/src/code-generation/main.cpp:140-155 | a parameter printed as `name (TYPE: T)` becomes `name:  t`: the name back, the type lowercased, and the blank after the marker kept |
| PythonGenProps.ParamWithoutMarker | mlang_compile/src/code-generation/main.cpp:156-159 | a value without the marker is used as it is |
| PythonGenProps.LoopVariableOfTyped | mlang_compile/src/code-generation/main.cpp:184-189 | a loop variable printed as `name (TYPE: T)` becomes `name` |
| PythonGenProps.JoinedAppend | mlang_compile/src/code-generation/main.cpp:283-293 | joining two non-empty lists is joining each with one delimiter between |
| PythonGenProps.JoinedLength | mlang_compile/src/code-generation/main.cpp:283-293 | a join is as long as its elements plus one delimiter per neighbouring pair |
| PythonGenProps.GenOk | mlang_compile/src/code-generation/main.cpp:83-115 | a tree without a for loop or return statement, nested definitions included, generates without error from any level >= 0 and ends at a level >= 0 |
| PythonGenProps.AllOk | mlang_compile/src/code-generation/main.cpp:106-112 | the same for a list of such trees generated in turn |
| PythonGenProps.BodiesOk | mlang_compile/src/code-generation/main.cpp:166-172 | the same for the bodies of a definition or a loop |
| PythonGenProps.DefinitionsEndAtZero | mlang_compile/src/code-generation/main.cpp:89-93 | loop-free definitions generated in turn from level 0 succeed and end at level 0, since each one sets the level to 0 |
| PythonGenProps.DriverEndsAtZero | mlang_compile/src/code-generation/main.cpp:377-384 | `main`'s loop over a root whose definitions hold no loop succeeds from a fresh generator and ends at level 0 |
| PythonGenProps.LastDefinitionEndsAtZero | mlang_compile/src/code-generation/main.cpp:89-93 | loop-free items whose last one is a definition end at level 0, whatever level they started from |
| PythonGenProps.DefinitionInLoopLowersLevel | mlang_compile/src/code-generation/main.cpp:205-220 | a for loop whose last body item is a definition ends at level -1: the definition resets the level to 0 and the loop lowers it |
| PythonGenProps.AssignmentAfterNegativeLevel | mlang_compile/src/code-generation/main.cpp:31-34 | once the level is negative, the next assignment with a target and a value fails with `length_error` |
| Pipeline.PlainWellFormed | mlang_compile/src/code-generation/main.cpp:83-115 | a printed outline without a function definition reads back as a tree the generator handles at a balanced level |
| Pipeline.LayoutPlain | mlang_compile/src/ast/ast-generation/ast.cpp:106-246 | a node holding no function definition prints no FUNCTION_DEFINITION line and no RETURN_STATEMENT line |
| Pipeline.FunctionTopLevel | mlang_compile/src/ast/ast-generation/ast.cpp:106-120 | a printed function whose body holds no nested definition reads back as a top-level item the generator accepts |
| Pipeline.LayoutLoopFree | mlang_compile/src/ast/ast-generation/ast.cpp:106-246 | no node the printer writes, nested definitions included, prints a FOR_LOOP or RETURN_STATEMENT line |
| Pipeline.LoopFreeNode | mlang_compile/src/code-generation/main.cpp:296-355 | such printed lines read back as a tree without loops or return statements |
| Pipeline.FunctionsRead | mlang_compile/src/ast/ast-generation/ast.cpp:106-120 | printed functions read back as FUNCTION_DEFINITION nodes without loops |
| Pipeline.ProgramTranslates | mlang_compile/src/code-generation/main.cpp:296-355 | every printed program of function definitions, nested definitions included, reads back without error, then generates Python without error and ends at level 0, both through generatePython on the root and through `main`'s loop |
| Pipeline.PrintedParameters | mlang_compile/src/code-generation/main.cpp:136-160 | the printed parameters of blank-free names come back as `name:  type`, in order |
| Pipeline.NodeOfParameter | mlang_compile/src/ast/ast-generation/ast.cpp:112-115 | the i-th PARAMETER node read back holds `name (TYPE: type)` of the i-th parameter |
| Pipeline.HeaderOfPrinted | mlang_compile/src/code-generation/main.cpp:164 | a printed function's `def` line is `def name(p1, p2, ...) -> rt:` with its own name, its parameters in order and its lowercased return type |
| Pipeline.HeaderNodesRead | mlang_compile/src/code-generation/main.cpp:123-162 | the header nodes give back the function's name, return type and parameter texts |
| Pipeline.LiteralTranslates | mlang_compile/src/code-generation/main.cpp:242-245 | a printed literal generates as its own text |
| Pipeline.OperatorTranslates | mlang_compile/src/code-generation/main.cpp:233-240 | a printed binary operator generates as the simplification of `left op right` |
| Pipeline.AssignmentTranslates | mlang_compile/src/code-generation/main.cpp:249-273 | a printed assignment with a non-empty target and value generates `x = simplify(value)` at the current indentation |
| Pipeline.AssignmentOfChildren | mlang_compile/src/code-generation/main.cpp:255-270 | the IDENTIFIER and EXPRESSION children give the assignment line |
| Pipeline.ConstantAssignmentFolds | mlang_compile/src/code-generation/main.cpp:58-71 | `x = a op b` for int literals a and b is written as `x = <result>` |

## Left out

- File input and output. Several parts that only move data in and out are not modelled:
  - the `main` functions, the lexer's token printing, and the `std::cerr` and `std::cout` writes;
  - reading the AST file: `parseASTFromFile` works on the lines already read, so the "cannot open" branch that returns `nullptr` is absent;
  - `report` returns its line, and the lexer keeps its diagnostics in a list instead of writing them.
- `readTokensFromFile` in ast.cpp: it is file reading plus `std::regex` matching, a library outside the model.
- The recursive-descent parser: no code for it exists among the modelled files. The syntax-tree classes are modelled, and trees are built from their constructors.
- `scanPossibleGenericType`: it is declared in lexer.h but defined nowhere, so it has no behaviour here.
- Null nodes: `generatePython(nullptr)` returning the empty string, and null children, are not modelled. Generic nodes are values, so a child is never null. The operands of a binary operator are always present, because printing dereferences both.
- Memory management: destructors and `unique_ptr` ownership are not modelled; immutable values make ownership moot.
- Character classes are ASCII only. Locale-dependent `isalpha`, `isdigit` and `tolower` on other characters are not modelled.
- Simplifier.Apply: sums, differences and products of two ints, and the quotient `-2147483648 / -1`, are computed on unbounded integers. The int overflow of the source, which is undefined behaviour, is not modelled.
- Simplifier.FoldConstants: for `-2147483648 / -1` it states the fold to `2147483648`, where the source's division overflows with undefined behaviour (a trap on x86), so no output is promised there. Pipeline.ConstantAssignmentFolds inherits this.
- Lexing.Lexer: position, line and column are unbounded integers, so overflow of the C++ `int` fields on huge inputs is not modelled.
- The keyword set is one constant per build. Each lexer holds it in an immutable field instead of sharing one static member.
- RoundTrip.PrintThenRead: printed lines are elements of a sequence. A value containing a newline, which the real output would split into two lines, is therefore not modelled.
- PythonGen.Generator.GenerateReturnStatement: a return statement without children is undefined behaviour in the source. It is modelled as an error result.
