/**
 * Lexical diagnostics. Each builder yields the diagnostic a lexer reports;
 * Report gives the line written for it, `file:line:column: error: message`.
 */
module Errors {
  import opened Wrappers
  import opened Text

  datatype Diagnostic = Diagnostic(filename: string, line: int, column: int, message: string)

  /** The diagnostic line `filename:line:column: error: message`. */
  function Report(d: Diagnostic): (s: string)
    ensures |s| > |d.filename| && s[..|d.filename|] == d.filename && s[|d.filename|] == ':'
    ensures |s| >= |d.message| && s[|s| - |d.message|..] == d.message
  {
    d.filename + ":" + IntToString(d.line) + ":" + IntToString(d.column) + ": error: " + d.message
  }

  /** The text before and after the first colon. */
  function SplitAtColon(s: string): Option<(string, string)>
  {
    match FindChar(s, ':')
    case None => None
    case Some(i) => Some((s[..i], s[i + 1..]))
  }

  /** Splits a diagnostic line back into its fields; the partner of Report. */
  function ParseReport(s: string): Option<Diagnostic>
  {
    match SplitAtColon(s)
    case None => None
    case Some((f, rest1)) =>
      match SplitAtColon(rest1)
      case None => None
      case Some((ls, rest2)) =>
        match SplitAtColon(rest2)
        case None => None
        case Some((cs, tail)) =>
          var sep := " error: ";
          if |tail| < |sep| || tail[..|sep|] != sep then None
          else match (Stoi(ls), Stoi(cs))
            case (Some(l), Some(c)) => Some(Diagnostic(f, l, c, tail[|sep|..]))
            case _ => None
  }

  /**
   * The message with the offending text appended in quotes. As written, the
   * text is appended only when it is EMPTY (giving `message''`); a non-empty
   * text is dropped and the message comes back unchanged.
   */
  function FormatMessage(message: string, token: string): (r: string)
    ensures token != "" ==> r == message
    ensures token == "" ==> r == message + "''"
  {
    if token == "" then message + "'" + token + "'" else message
  }

  function UnexpectedCharacter(filename: string, line: int, column: int, c: char): (d: Diagnostic)
    ensures d == Diagnostic(filename, line, column, "Unexpected character")
  {
    Diagnostic(filename, line, column, FormatMessage("Unexpected character", [c]))
  }

  function UnterminatedString(filename: string, line: int, column: int): (d: Diagnostic)
    ensures d.filename == filename && d.line == line && d.column == column
    ensures d.message == "Unterminated string literal"
  {
    Diagnostic(filename, line, column, "Unterminated string literal")
  }

  function InvalidNumber(filename: string, line: int, column: int, number: string): (d: Diagnostic)
    ensures d.filename == filename && d.line == line && d.column == column
    ensures number != "" ==> d.message == "Invalid number"
    ensures number == "" ==> d.message == "Invalid number''"
  {
    Diagnostic(filename, line, column, FormatMessage("Invalid number", number))
  }

  function InvalidIdentifier(filename: string, line: int, column: int, identifier: string): (d: Diagnostic)
    ensures d.filename == filename && d.line == line && d.column == column
    ensures identifier != "" ==> d.message == "Invalid identifier"
    ensures identifier == "" ==> d.message == "Invalid identifier''"
  {
    Diagnostic(filename, line, column, FormatMessage("Invalid identifier", identifier))
  }

  lemma NoColonInInt(i: int)
    ensures ':' !in IntToString(i)
  {
    var s := IntToString(i);
    assert forall k :: 0 <= k < |s| ==> s[k] != ':';
  }

  /**
   * A diagnostic line gives back the diagnostic it was written for, as long
   * as the file name has no colon and the position fits an `int`.
   */
  lemma ReportRoundTrip(d: Diagnostic)
    requires ':' !in d.filename
    requires InIntRange(d.line) && InIntRange(d.column)
    ensures ParseReport(Report(d)) == Some(d)
  {
    var ls, cs := IntToString(d.line), IntToString(d.column);
    assert Report(d) == d.filename + ":" + (ls + ":" + (cs + ":" + (" error: " + d.message)));
    NoColonInInt(d.line);
    NoColonInInt(d.column);
    StoiOfIntToString(d.line);
    StoiOfIntToString(d.column);
    ParseReportOf(d.filename, ls, cs, d.message);
  }

  lemma ParseReportOf(f: string, ls: string, cs: string, message: string)
    requires ':' !in f && ':' !in ls && ':' !in cs
    requires Stoi(ls).Some? && Stoi(cs).Some?
    ensures ParseReport(f + ":" + (ls + ":" + (cs + ":" + (" error: " + message))))
         == Some(Diagnostic(f, Stoi(ls).value, Stoi(cs).value, message))
  {
    var tail := " error: " + message;
    SplitAtColonOf(f, ls + ":" + (cs + ":" + tail));
    SplitAtColonOf(ls, cs + ":" + tail);
    SplitAtColonOf(cs, tail);
    assert tail[..|" error: "|] == " error: ";
    assert tail[|" error: "|..] == message;
  }

  lemma SplitAtColonOf(a: string, b: string)
    requires ':' !in a
    ensures SplitAtColon(a + ":" + b) == Some((a, b))
  {
    var s := a + ":" + b;
    assert s[|a|] == ':';
    assert FindChar(s, ':') == Some(|a|) by {
      forall j | 0 <= j < |a| ensures s[j] != ':' {
        assert s[j] == a[j];
      }
    }
    assert s[..|a|] == a && s[|a| + 1..] == b;
  }
}
