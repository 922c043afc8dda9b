/**
 * `PythonGenerator::simplifyExpression` of the code generator: a table of
 * identity rewrites on the exact strings the generator builds, then constant
 * folding of `<int> <op> <int>` read as three whitespace-separated tokens.
 */
module Simplifier {
  import opened Wrappers
  import opened Text

  /** The four operators the folder evaluates. */
  const Operators: set<string> := {"+", "-", "*", "/"}

  /**
   * The value the folder computes for `l op r`. Division truncates toward
   * zero, as C++ `int` division does; a zero divisor is not folded.
   */
  function Apply(op: string, l: int, r: int): int
    requires op in Operators
    requires op == "/" ==> r != 0
  {
    if op == "+" then l + r
    else if op == "-" then l - r
    else if op == "*" then l * r
    else TruncDiv(l, r)
  }

  /**
   * The identity table: the seven strings `0 + 0`, `a + 0`, `0 + a`, `a * 1`,
   * `1 * a`, `a * 0` and `0 * a`, each compared whole, and what each becomes.
   * All seven are five characters long with spaces at positions 1 and 3, so
   * the table is written over the three remaining characters.
   */
  function Identity(expr: string): Option<string>
  {
    if |expr| == 5 && expr[1] == ' ' && expr[3] == ' ' then IdentityRule(expr[0], expr[2], expr[4])
    else None
  }

  function IdentityRule(x: char, op: char, y: char): Option<string>
  {
    if op == '+' && x == '0' && y == '0' then Some("0")
    else if op == '+' && ((x == 'a' && y == '0') || (x == '0' && y == 'a')) then Some("a")
    else if op == '*' && ((x == 'a' && y == '1') || (x == '1' && y == 'a')) then Some("a")
    else if op == '*' && ((x == 'a' && y == '0') || (x == '0' && y == 'a')) then Some("0")
    else None
  }

  /**
   * Constant folding over the tokens of the expression: exactly three tokens,
   * an operator in the middle, and two operands `std::stoi` accepts. `None`
   * covers every case the source leaves the expression alone: another shape,
   * an operand `std::stoi` rejects (the exception is caught) and `x / 0`.
   */
  function Fold(tokens: seq<string>): Option<int>
  {
    if |tokens| == 3 && tokens[1] in Operators && Stoi(tokens[0]).Some? && Stoi(tokens[2]).Some? then
      var l, r := Stoi(tokens[0]).value, Stoi(tokens[2]).value;
      if tokens[1] == "/" && r == 0 then None else Some(Apply(tokens[1], l, r))
    else None
  }

  /** What simplifyExpression returns for `expr`. */
  function Simplify(expr: string): string
  {
    match Identity(expr)
    case Some(s) => s
    case None =>
      match Fold(Words(expr))
      case Some(v) => IntToString(v)
      case None => expr
  }

  /** The `while (iss >> token)` loop: the whitespace-separated tokens of `s`, in order. */
  method Tokenize(s: string) returns (tokens: seq<string>)
    ensures tokens == Words(s)
  {
    tokens := [];
    var i := 0;
    while i < |s|
      invariant 0 <= i <= |s|
      invariant tokens + Words(s[i..]) == Words(s)
      decreases |s| - i
    {
      if IsSpace(s[i]) {
        assert s[i..][1..] == s[i + 1..];
        i := i + 1;
      } else {
        var j := i;
        while j < |s| && !IsSpace(s[j])
          invariant i <= j <= |s|
          invariant forall k :: i <= k < j ==> !IsSpace(s[k])
        {
          j := j + 1;
        }
        assert s[i..] == s[i..j] + s[j..];
        WordLengthOf(s[i..j], s[j..]);
        assert s[i..][..j - i] == s[i..j] && s[i..][j - i..] == s[j..];
        tokens := tokens + [s[i..j]];
        i := j;
      }
    }
    assert s[i..] == [];
  }

  /** simplifyExpression itself: the identity table first, then the folder. */
  method SimplifyExpression(expr: string) returns (r: string)
    ensures r == Simplify(expr)
  {
    var rewritten := Identity(expr);
    if rewritten.Some? {
      return rewritten.value;
    }
    var tokens := Tokenize(expr);
    assert Simplify(expr) == if Fold(tokens).Some? then IntToString(Fold(tokens).value) else expr;
    if |tokens| == 3 && tokens[1] in Operators {
      var lhs := Stoi(tokens[0]);
      var rhs := Stoi(tokens[2]);
      if lhs.Some? && rhs.Some? {
        var op := tokens[1];
        if op == "+" { return IntToString(lhs.value + rhs.value); }
        if op == "-" { return IntToString(lhs.value - rhs.value); }
        if op == "*" { return IntToString(lhs.value * rhs.value); }
        if rhs.value != 0 { return IntToString(TruncDiv(lhs.value, rhs.value)); }
      }
    }
    return expr;
  }

  // ------------------------------------------------------------------ lemmas

  lemma IntToStringIsWord(i: int)
    ensures IsWord(IntToString(i))
    ensures IntToString(i)[0] != 'a' && IntToString(i) != "a"
  {
  }

  /** The strings the identity table matches, written out. */
  lemma IdentityStrings(expr: string)
    ensures Identity(expr).Some? ==>
      expr == "0 + 0" || expr == "a + 0" || expr == "0 + a" || expr == "a * 1" ||
      expr == "1 * a" || expr == "a * 0" || expr == "0 * a"
  {
    if Identity(expr).Some? {
      assert expr == [expr[0], ' ', expr[2], ' ', expr[4]];
    }
  }

  /** What each of the seven strings of the identity table becomes. */
  lemma IdentityTable()
    ensures Identity("0 + 0") == Some("0")
    ensures Identity("a + 0") == Some("a") && Identity("0 + a") == Some("a")
    ensures Identity("a * 1") == Some("a") && Identity("1 * a") == Some("a")
    ensures Identity("a * 0") == Some("0") && Identity("0 * a") == Some("0")
  {
  }

  /** The identity table only fires on three one-character tokens. */
  lemma IdentityShape(expr: string)
    ensures Identity(expr).Some? ==> Words(expr) == [[expr[0]], [expr[2]], [expr[4]]]
  {
    if Identity(expr).Some? {
      assert expr == [expr[0]] + " " + [expr[2]] + " " + [expr[4]];
      WordsOfThree([expr[0]], [expr[2]], [expr[4]]);
    }
  }

  /**
   * Two integer literals joined by an operator read back as three tokens whose
   * operands `std::stoi` parses to the original values; of the identity table
   * only `0 + 0` can match them.
   */
  lemma LiteralOperation(l: int, op: string, r: int)
    requires InIntRange(l) && InIntRange(r) && op in Operators
    ensures Words(IntToString(l) + " " + op + " " + IntToString(r)) == [IntToString(l), op, IntToString(r)]
    ensures Stoi(IntToString(l)) == Some(l) && Stoi(IntToString(r)) == Some(r)
    ensures Identity(IntToString(l) + " " + op + " " + IntToString(r)).Some? ==>
      l == 0 && op == "+" && r == 0 && Identity(IntToString(l) + " " + op + " " + IntToString(r)) == Some("0")
  {
    var e := IntToString(l) + " " + op + " " + IntToString(r);
    IntToStringIsWord(l);
    IntToStringIsWord(r);
    WordsOfThree(IntToString(l), op, IntToString(r));
    IdentityShape(e);
    StoiOfIntToString(l);
    StoiOfIntToString(r);
    if Identity(e).Some? {
      StoiOfIntToString(0);
      assert IntToString(0) == "0";
    }
  }

  /**
   * Two integer literals, as `std::to_string` writes them, joined by an
   * operator fold to the literal of the result.
   */
  lemma FoldConstants(l: int, op: string, r: int)
    requires InIntRange(l) && InIntRange(r) && op in Operators
    requires op == "/" ==> r != 0
    ensures Simplify(IntToString(l) + " " + op + " " + IntToString(r)) == IntToString(Apply(op, l, r))
  {
    var e := IntToString(l) + " " + op + " " + IntToString(r);
    LiteralOperation(l, op, r);
    if Identity(e).Some? {
      assert IntToString(0) == "0";
    } else {
      assert Fold(Words(e)) == Some(Apply(op, l, r));
    }
  }

  /** An operand with a fractional part folds by its integer prefix: `3.5 + 1` becomes `4`. */
  lemma FractionalOperandTruncated()
    ensures Simplify("3.5 + 1") == "4"
  {
    assert Identity("3.5 + 1") == None;
    FractionalFolds();
    assert IntToString(4) == "4";
  }

  lemma FractionalFolds()
    ensures Fold(Words("3.5 + 1")) == Some(4)
  {
    FractionalTokens();
  }

  lemma FractionalTokens()
    ensures Words("3.5 + 1") == ["3.5", "+", "1"]
    ensures Stoi("3.5") == Some(3) && Stoi("1") == Some(1)
  {
    assert IsWord("3.5") && IsWord("+") && IsWord("1");
    assert "3.5 + 1" == "3.5" + " " + "+" + " " + "1";
    WordsOfThree("3.5", "+", "1");
    assert NatToString(3) == "3" && NatToString(1) == "1";
    assert "3.5" == NatToString(3) + ".5";
    StoiOfPrefix(3, ".5");
    StoiOfNatToString(1);
  }

  /** A division of an integer literal by zero is left as it is. */
  lemma DivisionByZeroKept(l: int)
    requires InIntRange(l)
    ensures Simplify(IntToString(l) + " / " + IntToString(0)) == IntToString(l) + " / " + IntToString(0)
  {
    assert IntToString(l) + " / " + IntToString(0) == IntToString(l) + " " + "/" + " " + IntToString(0);
    LiteralOperation(l, "/", 0);
  }

  /** `std::stoi` rejects a token that starts with a letter. */
  lemma StoiOfName(w: string)
    requires w != [] && IsAlpha(w[0])
    ensures Stoi(w) == None
  {
    assert SpaceRun(w) == 0;
    assert w[0..] == w;
  }

  /**
   * An operation with a named operand other than `a` is returned unchanged:
   * the identity rules match the exact name `a` only, and the folder needs two
   * numbers.
   */
  lemma NamedOperandKept(w: string, op: string, u: string)
    requires IsWord(w) && IsWord(u) && op in Operators
    requires w != "a" && u != "a"
    requires IsAlpha(w[0]) || IsAlpha(u[0])
    ensures Simplify(w + " " + op + " " + u) == w + " " + op + " " + u
  {
    var e := w + " " + op + " " + u;
    WordsOfThree(w, op, u);
    IdentityShape(e);
    if IsAlpha(w[0]) {
      StoiOfName(w);
    } else {
      StoiOfName(u);
    }
  }

  /** A second pass changes nothing: every result is a single token or the input left alone. */
  lemma SimplifyIdempotent(expr: string)
    ensures Simplify(Simplify(expr)) == Simplify(expr)
  {
    var s := Simplify(expr);
    if Identity(expr).Some? {
      WordsOfWord(s);
    } else if Fold(Words(expr)).Some? {
      IntToStringIsWord(Fold(Words(expr)).value);
      WordsOfWord(s);
      IdentityShape(s);
    }
  }
}
