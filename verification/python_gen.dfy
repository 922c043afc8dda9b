/**
 * The `ASTPythonGenerator` of the code generator: it walks the tree read back
 * from a printed AST and writes Python source. The only state is the
 * indentation level, which function definitions and for loops raise for their
 * bodies and lower again afterwards.
 *
 * The functions below say what each `generate*` member returns for a node and
 * a starting level (and, for the members that move the level, where it ends);
 * the `Generator` class is the imperative walk, proved against them.
 */
module PythonGen {
  import opened Wrappers
  import opened Text
  import opened Simplifier
  import AstReader

  type Node = AstReader.Node

  /** Generated text and the indentation level after it. */
  datatype Out = Out(text: string, level: int)

  /** `std::string(n, ' ')` with a negative count throws `std::length_error`. */
  const IndentError: string := "length_error"

  /** `node->children[0]` on a return statement without children. */
  const MissingExpression: string := "return statement without an expression"

  /** The marker that separates a name from its type in a printed value. */
  const TypeMarker: string := " (TYPE:"

  /** getIndent: four spaces per level. */
  function IndentText(level: int): Result<string>
  {
    if level < 0 then Err(IndentError) else Ok(Spaces(level * 4))
  }

  // ------------------------------------------------------- child lookups

  /** The last child of the given kind: a loop assigning on every match keeps the last one. */
  function LastOf(ns: seq<Node>, kind: string): (r: Option<Node>)
    ensures r.Some? ==> r.value in ns && r.value.kind == kind
    ensures r.None? ==> forall i :: 0 <= i < |ns| ==> ns[i].kind != kind
  {
    if ns == [] then None
    else if ns[|ns| - 1].kind == kind then Some(ns[|ns| - 1])
    else LastOf(ns[..|ns| - 1], kind)
  }

  /** The child LastOf finds is the last one of its kind: no later child has that kind. */
  lemma {:induction false} LastOfIsLast(ns: seq<Node>, kind: string)
    ensures LastOf(ns, kind).Some? ==>
      exists i :: 0 <= i < |ns| && ns[i] == LastOf(ns, kind).value
        && forall j :: i < j < |ns| ==> ns[j].kind != kind
  {
    if ns != [] && ns[|ns| - 1].kind != kind {
      var p := ns[..|ns| - 1];
      LastOfIsLast(p, kind);
      if LastOf(p, kind).Some? {
        var i :| 0 <= i < |p| && p[i] == LastOf(p, kind).value && forall j :: i < j < |p| ==> p[j].kind != kind;
        assert ns[i] == p[i];
        forall j | i < j < |ns| ensures ns[j].kind != kind {
          if j < |p| { assert ns[j] == p[j]; }
        }
      }
    }
  }

  /** The value of the last child of the given kind, empty if there is none. */
  function ValueOf(ns: seq<Node>, kind: string): string
  {
    match LastOf(ns, kind)
    case None => ""
    case Some(c) => c.value
  }

  // ---------------------------------------------------- function headers

  /**
   * One parameter: `name (TYPE: T)` becomes `name: t`, the type lowercased and
   * its closing parenthesis dropped; the type keeps the blank that follows the
   * marker. A value without the marker is used as it is.
   */
  function ParamText(v: string): string
  {
    match Find(v, TypeMarker)
    case None => v
    case Some(p) =>
      var typ := v[p + 7..];
      var trimmed := if typ != [] && typ[|typ| - 1] == ')' then typ[..|typ| - 1] else typ;
      v[..p] + ": " + ToLower(trimmed)
  }

  function ParamTexts(ps: seq<Node>): (r: seq<string>)
    ensures |r| == |ps|
  {
    if ps == [] then [] else ParamTexts(ps[..|ps| - 1]) + [ParamText(ps[|ps| - 1].value)]
  }

  /** The parameters of every PARAMETERS child, in order. */
  function ParamsOf(ns: seq<Node>): seq<string>
  {
    if ns == [] then []
    else
      var last := ns[|ns| - 1];
      ParamsOf(ns[..|ns| - 1]) + (if last.kind == "PARAMETERS" then ParamTexts(last.children) else [])
  }

  /** join: the elements with the delimiter between consecutive ones. */
  function Joined(vec: seq<string>, delim: string): string
  {
    if vec == [] then ""
    else if |vec| == 1 then vec[0]
    else Joined(vec[..|vec| - 1], delim) + delim + vec[|vec| - 1]
  }

  /** The `def` line of a function definition with the given children. */
  function Header(ns: seq<Node>, indent: string): string
  {
    indent + "def " + ValueOf(ns, "FUNCTION_NAME") + "(" + Joined(ParamsOf(ns), ", ") + ") -> "
      + ToLower(ValueOf(ns, "RETURN_TYPE")) + ":\n"
  }

  // ----------------------------------------------------------- for loops

  /** The loop variable: the value of the last LOOP_VARIABLE child up to the type marker. */
  function LoopVariable(ns: seq<Node>): string
  {
    var full := ValueOf(ns, "LOOP_VARIABLE");
    match Find(full, TypeMarker)
    case None => full
    case Some(p) => full[..p]
  }

  /**
   * A range bound: a value mentioning LITERAL_VALUE is cut after its first
   * colon (the whole value when there is none, as `npos + 1` is 0); otherwise
   * the value of the first child, or nothing.
   */
  function Bound(c: Node): string
  {
    if Find(c.value, "LITERAL_VALUE").Some? then
      match FindChar(c.value, ':')
      case None => c.value
      case Some(k) => c.value[k + 1..]
    else if c.children != [] then c.children[0].value
    else ""
  }

  function BoundOf(ns: seq<Node>, kind: string): string
  {
    match LastOf(ns, kind)
    case None => ""
    case Some(c) => Bound(c)
  }

  /** The `for ... in range(...)` line of a loop with the given children. */
  function LoopHeader(ns: seq<Node>, indent: string): string
  {
    indent + "for " + LoopVariable(ns) + " in range(" + BoundOf(ns, "RANGE_START") + ", "
      + BoundOf(ns, "RANGE_END") + "):\n"
  }

  // --------------------------------------------------------- expressions

  /** generateExpression. */
  function GenExpression(n: Node): string
    decreases n, 1
  {
    if n.kind == "EXPRESSION" then GenExpressions(n.children)
    else if n.kind == "OPERATOR" then
      if |n.children| == 2 then
        Simplify(GenExpression(n.children[0]) + " " + n.value + " " + GenExpression(n.children[1]))
      else ""
    else if n.kind == "LITERAL_VALUE" || n.kind == "IDENTIFIER" then n.value
    else ""
  }

  function GenExpressions(ns: seq<Node>): string
    decreases ns, 0
  {
    if ns == [] then "" else GenExpressions(ns[..|ns| - 1]) + GenExpression(ns[|ns| - 1])
  }

  /** generateAssignment: the last IDENTIFIER child is the target, the last EXPRESSION child the value. */
  function GenAssignment(n: Node, level: int): Result<string>
  {
    var x := ValueOf(n.children, "IDENTIFIER");
    var v := match LastOf(n.children, "EXPRESSION") case None => "" case Some(e) => GenExpression(e);
    if x != "" && v != "" then
      match IndentText(level)
      case Err(e) => Err(e)
      case Ok(ind) => Ok(ind + x + " = " + Simplify(v) + "\n")
    else Ok("")
  }

  /** generateReturnStatement: the first child is the returned expression. */
  function GenReturnStatement(n: Node, level: int): Result<string>
  {
    if n.children == [] then Err(MissingExpression)
    else
      match IndentText(level)
      case Err(e) => Err(e)
      case Ok(ind) => Ok(ind + "return " + Simplify(GenExpression(n.children[0])) + "\n")
  }

  // ---------------------------------------------------------- statements

  function AtLevel(r: Result<string>, level: int): Result<Out>
  {
    match r
    case Err(e) => Err(e)
    case Ok(t) => Ok(Out(t, level))
  }

  /**
   * generatePython from indentation `level`. After a function definition the
   * level is set to 0, whatever it was.
   */
  function GenPython(n: Node, level: int): Result<Out>
    decreases n, 2
  {
    if n.kind == "FUNCTION_DEFINITION" then
      match GenFunctionDefinition(n, level)
      case Err(e) => Err(e)
      case Ok(o) => Ok(Out(o.text, 0))
    else if n.kind == "FOR_LOOP" then GenForLoop(n, level)
    else if n.kind == "ASSIGNMENT_EXPRESSION" then AtLevel(GenAssignment(n, level), level)
    else if n.kind == "RETURN_STATEMENT" then AtLevel(GenReturnStatement(n, level), level)
    else GenPythonAll(n.children, level)
  }

  /** generatePython over the nodes in order, each starting where the previous one left the level. */
  function GenPythonAll(ns: seq<Node>, level: int): Result<Out>
    decreases ns, 0
  {
    if ns == [] then Ok(Out("", level))
    else
      match GenPythonAll(ns[..|ns| - 1], level)
      case Err(e) => Err(e)
      case Ok(o) =>
        match GenPython(ns[|ns| - 1], o.level)
        case Err(e) => Err(e)
        case Ok(o') => Ok(Out(o.text + o'.text, o'.level))
  }

  /**
   * The children of the given kind, each generated as the sequence of its own
   * children. A FUNCTION_BODY child passed to generatePython is such a
   * sequence, since generatePython has no case of its own for that kind.
   */
  function GenBodies(ns: seq<Node>, kind: string, level: int): Result<Out>
    decreases ns, 0
  {
    if ns == [] then Ok(Out("", level))
    else
      match GenBodies(ns[..|ns| - 1], kind, level)
      case Err(e) => Err(e)
      case Ok(o) =>
        var last := ns[|ns| - 1];
        if last.kind != kind then Ok(o)
        else
          match GenPythonAll(last.children, o.level)
          case Err(e) => Err(e)
          case Ok(o') => Ok(Out(o.text + o'.text, o'.level))
  }

  /** generateFunctionDefinition: the `def` line, then the bodies one level deeper, then one level back. */
  function GenFunctionDefinition(n: Node, level: int): Result<Out>
    decreases n, 1
  {
    match IndentText(level)
    case Err(e) => Err(e)
    case Ok(ind) =>
      match GenBodies(n.children, "FUNCTION_BODY", level + 1)
      case Err(e) => Err(e)
      case Ok(o) => Ok(Out(Header(n.children, ind) + o.text, o.level - 1))
  }

  /** generateForLoop: nothing at all when the variable or a bound is missing. */
  function GenForLoop(n: Node, level: int): Result<Out>
    decreases n, 1
  {
    if LoopVariable(n.children) == "" || BoundOf(n.children, "RANGE_START") == ""
      || BoundOf(n.children, "RANGE_END") == ""
    then Ok(Out("", level))
    else
      match IndentText(level)
      case Err(e) => Err(e)
      case Ok(ind) =>
        match GenBodies(n.children, "LOOP_BODY", level + 1)
        case Err(e) => Err(e)
        case Ok(o) => Ok(Out(LoopHeader(n.children, ind) + o.text, o.level - 1))
  }

  /**
   * The driver loop of `main`: generatePython on each FUNCTION_DEFINITION
   * child of the root, in order and with one generator, each followed by a
   * blank line. Other children are skipped.
   */
  function GenDriver(ns: seq<Node>, level: int): Result<Out>
  {
    if ns == [] then Ok(Out("", level))
    else
      match GenDriver(ns[..|ns| - 1], level)
      case Err(e) => Err(e)
      case Ok(o) =>
        var last := ns[|ns| - 1];
        if last.kind != "FUNCTION_DEFINITION" then Ok(o)
        else
          match GenPython(last, o.level)
          case Err(e) => Err(e)
          case Ok(o') => Ok(Out(o.text + o'.text + "\n", o'.level))
  }

  lemma {:induction false} DriverErrorPersists(ns: seq<Node>, i: nat, level: int)
    requires i <= |ns| && GenDriver(ns[..i], level).Err?
    ensures GenDriver(ns, level) == GenDriver(ns[..i], level)
    decreases |ns|
  {
    if i == |ns| {
      assert ns[..i] == ns;
    } else {
      var p := ns[..|ns| - 1];
      assert p[..i] == ns[..i];
      DriverErrorPersists(p, i, level);
    }
  }

  /** One more child: the value of a kind is the new child's if it has that kind. */
  lemma ValueOfStep(ns: seq<Node>, i: nat, kind: string)
    requires i < |ns|
    ensures ValueOf(ns[..i + 1], kind) == if ns[i].kind == kind then ns[i].value else ValueOf(ns[..i], kind)
  {
    assert ns[..i + 1][..i] == ns[..i];
  }

  lemma ParamsOfStep(ns: seq<Node>, i: nat)
    requires i < |ns|
    ensures ParamsOf(ns[..i + 1])
      == ParamsOf(ns[..i]) + if ns[i].kind == "PARAMETERS" then ParamTexts(ns[i].children) else []
  {
    assert ns[..i + 1][..i] == ns[..i];
  }

  /** A loop with its variable and both bounds: its header, then its bodies one level deeper. */
  lemma ForLoopOutcome(n: Node, level: int, ind: string)
    requires LoopVariable(n.children) != "" && BoundOf(n.children, "RANGE_START") != ""
    requires BoundOf(n.children, "RANGE_END") != "" && IndentText(level) == Ok(ind)
    ensures var g := GenBodies(n.children, "LOOP_BODY", level + 1);
      GenForLoop(n, level)
        == if g.Err? then Err(g.error) else Ok(Out(LoopHeader(n.children, ind) + g.value.text, g.value.level - 1))
  {
    var g := GenBodies(n.children, "LOOP_BODY", level + 1);
    assert !(LoopVariable(n.children) == "" || BoundOf(n.children, "RANGE_START") == ""
      || BoundOf(n.children, "RANGE_END") == "");
    assert GenForLoop(n, level)
      == match g case Err(e) => Err(e) case Ok(o) => Ok(Out(LoopHeader(n.children, ind) + o.text, o.level - 1));
  }

  /** A method's result and final level agree with a generation function's outcome. */
  predicate Agrees(r: Result<string>, g: Result<Out>, level: int)
  {
    match g
    case Err(e) => r == Err(e)
    case Ok(o) => r == Ok(o.text) && level == o.level
  }

  // ----------------------------------------------- errors cut the walk short

  lemma {:induction false} AllErrorPersists(ns: seq<Node>, i: nat, level: int)
    requires i <= |ns| && GenPythonAll(ns[..i], level).Err?
    ensures GenPythonAll(ns, level) == GenPythonAll(ns[..i], level)
    decreases |ns|
  {
    if i == |ns| {
      assert ns[..i] == ns;
    } else {
      var p := ns[..|ns| - 1];
      assert p[..i] == ns[..i];
      AllErrorPersists(p, i, level);
    }
  }

  lemma {:induction false} BodiesErrorPersists(ns: seq<Node>, kind: string, i: nat, level: int)
    requires i <= |ns| && GenBodies(ns[..i], kind, level).Err?
    ensures GenBodies(ns, kind, level) == GenBodies(ns[..i], kind, level)
    decreases |ns|
  {
    if i == |ns| {
      assert ns[..i] == ns;
    } else {
      var p := ns[..|ns| - 1];
      assert p[..i] == ns[..i];
      BodiesErrorPersists(p, kind, i, level);
    }
  }

  // ---------------------------------------------------------- the class

  class Generator {
    var indentLevel: int

    constructor ()
      ensures indentLevel == 0
    {
      indentLevel := 0;
    }

    method GetIndent() returns (r: Result<string>)
      ensures r.Ok? <==> indentLevel >= 0
      ensures r.Ok? ==> |r.value| == 4 * indentLevel && forall i :: 0 <= i < |r.value| ==> r.value[i] == ' '
      ensures r == IndentText(indentLevel)
    {
      if indentLevel < 0 {
        return Err(IndentError);
      }
      return Ok(Spaces(indentLevel * 4));
    }

    method Join(vec: seq<string>, delim: string) returns (s: string)
      ensures s == Joined(vec, delim)
    {
      s := "";
      var i := 0;
      while i < |vec|
        invariant 0 <= i <= |vec|
        invariant s == Joined(vec[..i], delim)
      {
        assert vec[..i + 1][..i] == vec[..i];
        if i > 0 {
          s := s + delim;
        }
        s := s + vec[i];
        i := i + 1;
      }
      assert vec[..i] == vec;
    }

    method GenerateExpression(n: Node) returns (s: string)
      ensures s == GenExpression(n)
      decreases n
    {
      s := "";
      if n.kind == "EXPRESSION" {
        var i := 0;
        while i < |n.children|
          invariant 0 <= i <= |n.children|
          invariant s == GenExpressions(n.children[..i])
        {
          assert n.children[..i + 1][..i] == n.children[..i];
          var t := GenerateExpression(n.children[i]);
          s := s + t;
          i := i + 1;
        }
        assert n.children[..i] == n.children;
      } else if n.kind == "OPERATOR" {
        if |n.children| == 2 {
          var left := GenerateExpression(n.children[0]);
          var right := GenerateExpression(n.children[1]);
          s := SimplifyExpression(left + " " + n.value + " " + right);
        }
      } else if n.kind == "LITERAL_VALUE" || n.kind == "IDENTIFIER" {
        s := n.value;
      }
    }

    method GenerateAssignment(n: Node) returns (r: Result<string>)
      ensures r == GenAssignment(n, indentLevel)
    {
      var variable, value := "", "";
      var i := 0;
      while i < |n.children|
        invariant 0 <= i <= |n.children|
        invariant variable == ValueOf(n.children[..i], "IDENTIFIER")
        invariant value == match LastOf(n.children[..i], "EXPRESSION") case None => "" case Some(e) => GenExpression(e)
      {
        assert n.children[..i + 1][..i] == n.children[..i];
        var child := n.children[i];
        if child.kind == "IDENTIFIER" {
          variable := child.value;
        }
        if child.kind == "EXPRESSION" {
          value := GenerateExpression(child);
        }
        i := i + 1;
      }
      assert n.children[..i] == n.children;
      if variable != "" && value != "" {
        var indent := GetIndent();
        if indent.Err? {
          return Err(indent.error);
        }
        var simplified := SimplifyExpression(value);
        return Ok(indent.value + variable + " = " + simplified + "\n");
      }
      return Ok("");
    }

    method GenerateReturnStatement(n: Node) returns (r: Result<string>)
      ensures r == GenReturnStatement(n, indentLevel)
    {
      if n.children == [] {
        return Err(MissingExpression);
      }
      var expr := GenerateExpression(n.children[0]);
      var indent := GetIndent();
      if indent.Err? {
        return Err(indent.error);
      }
      var simplified := SimplifyExpression(expr);
      return Ok(indent.value + "return " + simplified + "\n");
    }

    method GeneratePython(n: Node) returns (r: Result<string>)
      modifies this
      ensures Agrees(r, GenPython(n, old(indentLevel)), indentLevel)
      decreases n, 2
    {
      if n.kind == "FUNCTION_DEFINITION" {
        r := GenerateFunctionDefinition(n);
        if r.Err? {
          return;
        }
        indentLevel := 0;
      } else if n.kind == "FOR_LOOP" {
        r := GenerateForLoop(n);
      } else if n.kind == "ASSIGNMENT_EXPRESSION" {
        r := GenerateAssignment(n);
      } else if n.kind == "RETURN_STATEMENT" {
        r := GenerateReturnStatement(n);
      } else {
        r := GenerateChildren(n.children);
      }
    }

    /** The loop of `main` over the root's children, writing each definition and a blank line. */
    method GenerateProgram(root: Node) returns (r: Result<string>)
      modifies this
      ensures Agrees(r, GenDriver(root.children, old(indentLevel)), indentLevel)
    {
      var ns := root.children;
      ghost var start := indentLevel;
      var pythonCode := "";
      var i := 0;
      while i < |ns|
        invariant 0 <= i <= |ns|
        invariant GenDriver(ns[..i], start) == Ok(Out(pythonCode, indentLevel))
      {
        assert ns[..i + 1][..i] == ns[..i];
        if ns[i].kind == "FUNCTION_DEFINITION" {
          var s := GeneratePython(ns[i]);
          if s.Err? {
            DriverErrorPersists(ns, i + 1, start);
            return s;
          }
          pythonCode := pythonCode + s.value;
          pythonCode := pythonCode + "\n";
        }
        i := i + 1;
      }
      assert ns[..i] == ns;
      return Ok(pythonCode);
    }

    /** The loop of generatePython over the children of a node without a case of its own. */
    method GenerateChildren(ns: seq<Node>) returns (r: Result<string>)
      modifies this
      ensures Agrees(r, GenPythonAll(ns, old(indentLevel)), indentLevel)
      decreases ns, 1
    {
      ghost var start := indentLevel;
      var text := "";
      var i := 0;
      while i < |ns|
        invariant 0 <= i <= |ns|
        invariant GenPythonAll(ns[..i], start) == Ok(Out(text, indentLevel))
      {
        assert ns[..i + 1][..i] == ns[..i];
        var s := GeneratePython(ns[i]);
        if s.Err? {
          AllErrorPersists(ns, i + 1, start);
          return s;
        }
        text := text + s.value;
        i := i + 1;
      }
      assert ns[..i] == ns;
      return Ok(text);
    }

    /** The inner loop of generateForLoop: each LOOP_BODY child's children in turn. */
    method GenerateLoopBodies(ns: seq<Node>) returns (r: Result<string>)
      modifies this
      ensures Agrees(r, GenBodies(ns, "LOOP_BODY", old(indentLevel)), indentLevel)
      decreases ns, 2
    {
      ghost var start := indentLevel;
      var text := "";
      var i := 0;
      while i < |ns|
        invariant 0 <= i <= |ns|
        invariant GenBodies(ns[..i], "LOOP_BODY", start) == Ok(Out(text, indentLevel))
      {
        assert ns[..i + 1][..i] == ns[..i];
        if ns[i].kind == "LOOP_BODY" {
          var s := GenerateChildren(ns[i].children);
          if s.Err? {
            BodiesErrorPersists(ns, "LOOP_BODY", i + 1, start);
            return s;
          }
          text := text + s.value;
        }
        i := i + 1;
      }
      assert ns[..i] == ns;
      return Ok(text);
    }

    /** The body loop of generateFunctionDefinition: generatePython on each FUNCTION_BODY child. */
    method GenerateFunctionBodies(ns: seq<Node>) returns (r: Result<string>)
      modifies this
      ensures Agrees(r, GenBodies(ns, "FUNCTION_BODY", old(indentLevel)), indentLevel)
      decreases ns, 2
    {
      ghost var start := indentLevel;
      var text := "";
      var i := 0;
      while i < |ns|
        invariant 0 <= i <= |ns|
        invariant GenBodies(ns[..i], "FUNCTION_BODY", start) == Ok(Out(text, indentLevel))
      {
        assert ns[..i + 1][..i] == ns[..i];
        if ns[i].kind == "FUNCTION_BODY" {
          var s := GeneratePython(ns[i]);
          if s.Err? {
            BodiesErrorPersists(ns, "FUNCTION_BODY", i + 1, start);
            return s;
          }
          text := text + s.value;
        }
        i := i + 1;
      }
      assert ns[..i] == ns;
      return Ok(text);
    }

    /** One parameter of generateFunctionDefinition's first loop. */
    method ParamEntry(value: string) returns (entry: string)
      ensures entry == ParamText(value)
    {
      var paramName := value;
      var typePos := Find(paramName, TypeMarker);
      if typePos.Some? {
        var paramType := paramName[typePos.value + 7..];
        paramName := paramName[..typePos.value];
        if paramType != [] && paramType[|paramType| - 1] == ')' {
          paramType := paramType[..|paramType| - 1];
        }
        entry := paramName + ": " + ToLower(paramType);
      } else {
        entry := paramName;
      }
    }

    /** The first loop of generateFunctionDefinition: name, return type and parameters. */
    method HeaderParts(ns: seq<Node>) returns (funcName: string, returnType: string, params: seq<string>)
      ensures funcName == ValueOf(ns, "FUNCTION_NAME")
      ensures returnType == ToLower(ValueOf(ns, "RETURN_TYPE"))
      ensures params == ParamsOf(ns)
    {
      funcName, returnType, params := "", "", [];
      var i := 0;
      while i < |ns|
        invariant 0 <= i <= |ns|
        invariant funcName == ValueOf(ns[..i], "FUNCTION_NAME")
        invariant returnType == ToLower(ValueOf(ns[..i], "RETURN_TYPE"))
        invariant params == ParamsOf(ns[..i])
      {
        ValueOfStep(ns, i, "FUNCTION_NAME");
        ValueOfStep(ns, i, "RETURN_TYPE");
        ParamsOfStep(ns, i);
        var child := ns[i];
        if child.kind == "FUNCTION_NAME" {
          funcName := child.value;
        } else if child.kind == "RETURN_TYPE" {
          returnType := ToLower(child.value);
        } else if child.kind == "PARAMETERS" {
          var entries := ParamEntries(child.children);
          params := params + entries;
        }
        i := i + 1;
      }
      assert ns[..i] == ns;
    }

    /** The inner loop over the children of a PARAMETERS node. */
    method ParamEntries(ps: seq<Node>) returns (entries: seq<string>)
      ensures entries == ParamTexts(ps)
    {
      entries := [];
      var j := 0;
      while j < |ps|
        invariant 0 <= j <= |ps|
        invariant entries == ParamTexts(ps[..j])
      {
        assert ps[..j + 1][..j] == ps[..j];
        var entry := ParamEntry(ps[j].value);
        entries := entries + [entry];
        j := j + 1;
      }
      assert ps[..j] == ps;
    }

    method GenerateFunctionDefinition(n: Node) returns (r: Result<string>)
      modifies this
      ensures Agrees(r, GenFunctionDefinition(n, old(indentLevel)), indentLevel)
      decreases n, 1
    {
      var funcName, returnType, params := HeaderParts(n.children);
      var indent := GetIndent();
      if indent.Err? {
        return Err(indent.error);
      }
      var joined := Join(params, ", ");
      var header := indent.value + "def " + funcName + "(" + joined + ") -> " + returnType + ":\n";
      assert header == Header(n.children, indent.value);
      indentLevel := indentLevel + 1;
      var body := GenerateFunctionBodies(n.children);
      if body.Err? {
        return body;
      }
      indentLevel := indentLevel - 1;
      return Ok(header + body.value);
    }

    /** The first loop of generateForLoop: the loop variable and the two bounds. */
    method LoopParts(ns: seq<Node>) returns (loopVar: string, rangeStart: string, rangeEnd: string)
      ensures loopVar == LoopVariable(ns)
      ensures rangeStart == BoundOf(ns, "RANGE_START")
      ensures rangeEnd == BoundOf(ns, "RANGE_END")
    {
      loopVar, rangeStart, rangeEnd := "", "", "";
      ghost var fullVar := "";
      var i := 0;
      while i < |ns|
        invariant 0 <= i <= |ns|
        invariant fullVar == ValueOf(ns[..i], "LOOP_VARIABLE")
        invariant loopVar == match Find(fullVar, TypeMarker) case None => fullVar case Some(p) => fullVar[..p]
        invariant rangeStart == BoundOf(ns[..i], "RANGE_START")
        invariant rangeEnd == BoundOf(ns[..i], "RANGE_END")
      {
        assert ns[..i + 1][..i] == ns[..i];
        var child := ns[i];
        if child.kind == "LOOP_VARIABLE" {
          fullVar := child.value;
          var pos := Find(child.value, TypeMarker);
          loopVar := if pos.Some? then child.value[..pos.value] else child.value;
        } else if child.kind == "RANGE_START" {
          rangeStart := BoundText(child);
        } else if child.kind == "RANGE_END" {
          rangeEnd := BoundText(child);
        }
        i := i + 1;
      }
      assert ns[..i] == ns;
    }

    method GenerateForLoop(n: Node) returns (r: Result<string>)
      modifies this
      ensures Agrees(r, GenForLoop(n, old(indentLevel)), indentLevel)
      decreases n, 1
    {
      ghost var level := indentLevel;
      var loopVar, rangeStart, rangeEnd := LoopParts(n.children);
      if loopVar == "" || rangeStart == "" || rangeEnd == "" {
        assert GenForLoop(n, level) == Ok(Out("", level));
        return Ok("");
      }
      var indent := GetIndent();
      if indent.Err? {
        assert GenForLoop(n, level) == Err(indent.error);
        return Err(indent.error);
      }
      var header := indent.value + "for " + loopVar + " in range(" + rangeStart + ", " + rangeEnd + "):\n";
      assert header == LoopHeader(n.children, indent.value);
      indentLevel := indentLevel + 1;
      var body := GenerateLoopBodies(n.children);
      ForLoopOutcome(n, level, indent.value);
      if body.Err? {
        return body;
      }
      indentLevel := indentLevel - 1;
      return Ok(header + body.value);
    }

    /** The conditional expression that reads a range bound. */
    method BoundText(c: Node) returns (s: string)
      ensures s == Bound(c)
    {
      if Find(c.value, "LITERAL_VALUE").Some? {
        var colon := FindChar(c.value, ':');
        s := if colon.Some? then c.value[colon.value + 1..] else c.value;
      } else {
        s := if c.children != [] then c.children[0].value else "";
      }
    }
  }
}
