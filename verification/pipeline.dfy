/**
 * The two programs together: the parser's AST printer writes a tree as
 * indented lines, the code generator reads them back and writes Python.
 * Every program of function definitions the printer writes, nested
 * definitions included, translates without error; a printed `def` line
 * carries the function's name, its parameters and its lowercased return
 * type; and an assignment of an operation on two integer literals comes out
 * folded.
 */
module Pipeline {
  import opened Wrappers
  import opened Text
  import opened Ast
  import AstReader
  import opened RoundTrip
  import opened Simplifier
  import opened PythonGen
  import opened PythonGenProps

  // ------------------------------------------------- the nodes the printer writes

  /** No function definition anywhere inside: the printer's statements and expressions. */
  predicate NoDefinition(n: AstNode)
    decreases n
  {
    match n
    case FunctionDef(_, _, _, _) => false
    case Block(stmts) => forall i :: 0 <= i < |stmts| ==> NoDefinition(stmts[i])
    case VariableDeclaration(_, _, init) => init.Some? ==> NoDefinition(init.value)
    case FunctionCall(_, args) => forall i :: 0 <= i < |args| ==> NoDefinition(args[i])
    case Literal(_) => true
    case Assignment(_, e) => e.Some? ==> NoDefinition(e.value)
    case BinaryOperator(_, l, r) => NoDefinition(l) && NoDefinition(r)
  }

  /** An outline with no FUNCTION_DEFINITION and no RETURN_STATEMENT line in it. */
  predicate Plain(o: Outline)
    decreases o, 1
  {
    o.kind != "FUNCTION_DEFINITION" && o.kind != "RETURN_STATEMENT" && AllPlain(o.children)
  }

  predicate AllPlain(os: seq<Outline>)
    decreases os, 0
  {
    forall i :: 0 <= i < |os| ==> Plain(os[i])
  }

  lemma AllPlainConcat(a: seq<Outline>, b: seq<Outline>)
    requires AllPlain(a) && AllPlain(b)
    ensures AllPlain(a + b)
  {
    assert forall i :: 0 <= i < |a + b| ==> (a + b)[i] == if i < |a| then a[i] else b[i - |a|];
  }

  /** A plain outline reads back as a tree the generator handles without error. */
  lemma {:induction false} PlainWellFormed(o: Outline)
    requires Plain(o)
    ensures WellFormed(ToNode(o))
    decreases o, 1
  {
    AllPlainWellFormed(o.children);
  }

  lemma {:induction false} AllPlainWellFormed(os: seq<Outline>)
    requires AllPlain(os)
    ensures AllWellFormed(ToNodes(os))
    decreases os, 0
  {
    if os != [] {
      PlainWellFormed(os[0]);
      AllPlainWellFormed(os[1..]);
      var ns := ToNodes(os);
      assert forall i :: 1 <= i < |ns| ==> ns[i] == ToNodes(os[1..])[i - 1];
    }
  }

  /** Every statement or expression of the printer prints a plain outline. */
  lemma {:induction false} LayoutPlain(n: AstNode)
    requires NoDefinition(n)
    ensures Plain(Layout(n))
    decreases n, 1
  {
    match n
    case Block(stmts) =>
      LayoutsPlain(stmts);
    case VariableDeclaration(typ, name, init) =>
      OptionalLayoutPlain(init);
      AllPlainConcat([Leaf("IDENTIFIER", Typed(name, typ))], OptionalLayout(init));
    case FunctionCall(f, args) =>
      LayoutsPlain(args);
    case Literal(v) =>
    case Assignment(x, e) =>
      OptionalLayoutPlain(e);
      var cs := Layout(n).children;
      assert Plain(cs[0]) && Plain(cs[1]);
    case BinaryOperator(op, l, r) =>
      LayoutPlain(l);
      LayoutPlain(r);
  }

  lemma {:induction false} LayoutsPlain(ns: seq<AstNode>)
    requires forall i :: 0 <= i < |ns| ==> NoDefinition(ns[i])
    ensures AllPlain(Layouts(ns))
    decreases ns, 0
  {
    if ns != [] {
      LayoutPlain(ns[0]);
      LayoutsPlain(ns[1..]);
      var os := Layouts(ns);
      assert forall i :: 1 <= i < |os| ==> os[i] == Layouts(ns[1..])[i - 1];
    }
  }

  lemma {:induction false} OptionalLayoutPlain(n: Option<AstNode>)
    requires n.Some? ==> NoDefinition(n.value)
    ensures AllPlain(OptionalLayout(n))
    decreases n, 0
  {
    if n.Some? {
      LayoutPlain(n.value);
    }
  }

  lemma {:induction false} ParameterLayoutsPlain(ps: seq<Parameter>)
    ensures AllPlain(ParameterLayouts(ps))
  {
    if ps != [] {
      ParameterLayoutsPlain(ps[1..]);
      var os := ParameterLayouts(ps);
      assert forall i :: 1 <= i < |os| ==> os[i] == ParameterLayouts(ps[1..])[i - 1];
    }
  }

  // ------------------------------------------------- whole programs

  /** A function the printer writes whose body holds no further function definition. */
  predicate Translatable(f: AstNode)
  {
    f.FunctionDef? && (f.body.Some? ==> NoDefinition(f.body.value))
  }

  lemma FunctionTopLevel(f: AstNode)
    requires Translatable(f)
    ensures TopLevel(ToNode(Layout(f)))
  {
    var head := FunctionHeader(f.name, f.parameters, f.returnType);
    ParameterLayoutsPlain(f.parameters);
    assert AllPlain(head);
    OptionalLayoutPlain(f.body);
    AllPlainConcat(head, OptionalLayout(f.body));
    AllPlainWellFormed(head + OptionalLayout(f.body));
  }

  /** An outline with no FOR_LOOP and no RETURN_STATEMENT line in it. */
  predicate LoopFree(o: Outline)
    decreases o, 1
  {
    o.kind != "FOR_LOOP" && o.kind != "RETURN_STATEMENT" && AllLoopFree(o.children)
  }

  predicate AllLoopFree(os: seq<Outline>)
    decreases os, 0
  {
    forall i :: 0 <= i < |os| ==> LoopFree(os[i])
  }

  lemma AllLoopFreeConcat(a: seq<Outline>, b: seq<Outline>)
    requires AllLoopFree(a) && AllLoopFree(b)
    ensures AllLoopFree(a + b)
  {
    assert forall i :: 0 <= i < |a + b| ==> (a + b)[i] == if i < |a| then a[i] else b[i - |a|];
  }

  /** The printer writes no FOR_LOOP or RETURN_STATEMENT line for any node, nested definitions included. */
  lemma {:induction false} LayoutLoopFree(n: AstNode)
    ensures LoopFree(Layout(n))
    decreases n, 1
  {
    match n
    case FunctionDef(name, params, rt, body) =>
      var head := FunctionHeader(name, params, rt);
      ParameterLayoutsLoopFree(params);
      assert AllLoopFree(head);
      OptionalLayoutLoopFree(body);
      AllLoopFreeConcat(head, OptionalLayout(body));
    case Block(stmts) =>
      LayoutsLoopFree(stmts);
    case VariableDeclaration(typ, name, init) =>
      OptionalLayoutLoopFree(init);
      AllLoopFreeConcat([Leaf("IDENTIFIER", Typed(name, typ))], OptionalLayout(init));
    case FunctionCall(f, args) =>
      LayoutsLoopFree(args);
    case Literal(v) =>
    case Assignment(x, e) =>
      OptionalLayoutLoopFree(e);
      var cs := Layout(n).children;
      assert LoopFree(cs[0]) && LoopFree(cs[1]);
    case BinaryOperator(op, l, r) =>
      LayoutLoopFree(l);
      LayoutLoopFree(r);
  }

  lemma {:induction false} LayoutsLoopFree(ns: seq<AstNode>)
    ensures AllLoopFree(Layouts(ns))
    decreases ns, 0
  {
    if ns != [] {
      LayoutLoopFree(ns[0]);
      LayoutsLoopFree(ns[1..]);
      var os := Layouts(ns);
      assert forall i :: 1 <= i < |os| ==> os[i] == Layouts(ns[1..])[i - 1];
    }
  }

  lemma {:induction false} OptionalLayoutLoopFree(n: Option<AstNode>)
    ensures AllLoopFree(OptionalLayout(n))
    decreases n, 0
  {
    if n.Some? {
      LayoutLoopFree(n.value);
    }
  }

  lemma {:induction false} ParameterLayoutsLoopFree(ps: seq<Parameter>)
    ensures AllLoopFree(ParameterLayouts(ps))
  {
    if ps != [] {
      ParameterLayoutsLoopFree(ps[1..]);
      var os := ParameterLayouts(ps);
      assert forall i :: 1 <= i < |os| ==> os[i] == ParameterLayouts(ps[1..])[i - 1];
    }
  }

  /** A loop-free outline reads back as a tree without loops. */
  lemma {:induction false} LoopFreeNode(o: Outline)
    requires LoopFree(o)
    ensures NoLoop(ToNode(o))
    decreases o, 1
  {
    LoopFreeNodes(o.children);
  }

  lemma {:induction false} LoopFreeNodes(os: seq<Outline>)
    requires AllLoopFree(os)
    ensures AllNoLoop(ToNodes(os))
    decreases os, 0
  {
    if os != [] {
      LoopFreeNode(os[0]);
      LoopFreeNodes(os[1..]);
      var ns := ToNodes(os);
      assert forall i :: 1 <= i < |ns| ==> ns[i] == ToNodes(os[1..])[i - 1];
    }
  }

  /** Printed functions read back as loop-free FUNCTION_DEFINITION nodes. */
  lemma {:induction false} FunctionsRead(fs: seq<AstNode>)
    requires forall i :: 0 <= i < |fs| ==> fs[i].FunctionDef?
    ensures forall i :: 0 <= i < |fs| ==>
      ToNodes(Layouts(fs))[i].kind == "FUNCTION_DEFINITION" && NoLoop(ToNodes(Layouts(fs))[i])
  {
    if fs != [] {
      LayoutLoopFree(fs[0]);
      LoopFreeNode(Layout(fs[0]));
      FunctionsRead(fs[1..]);
      var ns := ToNodes(Layouts(fs));
      assert Layouts(fs) == [Layout(fs[0])] + Layouts(fs[1..]);
      assert forall i :: 1 <= i < |ns| ==> ns[i] == ToNodes(Layouts(fs[1..]))[i - 1];
    }
  }

  /**
   * A program of function definitions, printed by the AST printer and read
   * back by the generator, translates to Python without error, and the
   * generator ends at indentation level 0, both by generatePython on the
   * root and by `main`'s loop over the root's definitions. Definitions nested in function
   * bodies are included: the printer never writes a for loop, so nothing
   * lowers the level below 0, and each top-level definition sets it back
   * to 0.
   */
  lemma ProgramTranslates(functions: seq<AstNode>)
    requires forall i :: 0 <= i < |functions| ==> functions[i].FunctionDef?
    ensures AstReader.ReadLines(PrintProgram(functions, 0)).Ok?
    ensures GenPython(AstReader.ReadLines(PrintProgram(functions, 0)).value, 0).Ok?
    ensures GenPython(AstReader.ReadLines(PrintProgram(functions, 0)).value, 0).value.level == 0
    ensures GenDriver(AstReader.ReadLines(PrintProgram(functions, 0)).value.children, 0).Ok?
    ensures GenDriver(AstReader.ReadLines(PrintProgram(functions, 0)).value.children, 0).value.level == 0
  {
    PrintThenRead(functions);
    FunctionsRead(functions);
    var ns := ToNodes(Layouts(functions));
    DefinitionsEndAtZero(ns);
    DriverEndsAtZero(ns);
    assert GenPython(AstReader.Node("ROOT", "", ns), 0) == GenPythonAll(ns, 0);
  }

  // ------------------------------------------------- the def line

  /** The parameter the generator writes for a printed parameter. */
  function PythonParam(p: Parameter): string
  {
    p.name + ":  " + ToLower(p.paramType)
  }

  function PythonParams(ps: seq<Parameter>): (r: seq<string>)
    ensures |r| == |ps|
  {
    if ps == [] then [] else [PythonParam(ps[0])] + PythonParams(ps[1..])
  }

  /** A parameter name without blanks, as the lexer's identifiers are. */
  predicate BlankFree(name: string)
  {
    forall i :: 0 <= i < |name| ==> name[i] != ' '
  }

  lemma {:induction false} ParamTextsAt(ps: seq<Node>, i: nat)
    requires i < |ps|
    ensures ParamTexts(ps)[i] == ParamText(ps[i].value)
    decreases |ps|
  {
    if i < |ps| - 1 {
      assert ps[..|ps| - 1][i] == ps[i];
      ParamTextsAt(ps[..|ps| - 1], i);
    }
  }

  lemma {:induction false} PrintedParameters(ps: seq<Parameter>)
    requires forall i :: 0 <= i < |ps| ==> BlankFree(ps[i].name)
    ensures ParamTexts(ToNodes(ParameterLayouts(ps))) == PythonParams(ps)
  {
    var ns := ToNodes(ParameterLayouts(ps));
    forall i | 0 <= i < |ps|
      ensures ParamTexts(ns)[i] == PythonParams(ps)[i]
    {
      ParamTextsAt(ns, i);
      NodeOfParameter(ps, i);
      ParamOfTyped(ps[i].name, ps[i].paramType);
      PythonParamsAt(ps, i);
    }
  }

  lemma {:induction false} NodeOfParameter(ps: seq<Parameter>, i: nat)
    requires i < |ps|
    ensures ToNodes(ParameterLayouts(ps))[i].value == ps[i].name + " (TYPE: " + ps[i].paramType + ")"
    decreases |ps|
  {
    if i > 0 {
      NodeOfParameter(ps[1..], i - 1);
      assert ParameterLayouts(ps)[1..] == ParameterLayouts(ps[1..]);
      assert ToNodes(ParameterLayouts(ps))[i] == ToNodes(ParameterLayouts(ps[1..]))[i - 1];
    }
  }

  lemma {:induction false} PythonParamsAt(ps: seq<Parameter>, i: nat)
    requires i < |ps|
    ensures PythonParams(ps)[i] == PythonParam(ps[i])
    decreases |ps|
  {
    if i > 0 {
      PythonParamsAt(ps[1..], i - 1);
    }
  }

  /** No printed statement or expression line has one of the header kinds. */
  lemma LayoutKind(n: AstNode)
    ensures Layout(n).kind != "FUNCTION_NAME" && Layout(n).kind != "RETURN_TYPE"
    ensures Layout(n).kind != "PARAMETERS"
  {
  }

  /**
   * The `def` line the generator writes for a printed function: its name,
   * its parameters as `name:  type` joined by commas, and its return type in
   * lower case.
   */
  lemma HeaderOfPrinted(f: AstNode, indent: string)
    requires f.FunctionDef?
    requires forall i :: 0 <= i < |f.parameters| ==> BlankFree(f.parameters[i].name)
    ensures Header(ToNode(Layout(f)).children, indent)
      == indent + "def " + f.name + "(" + Joined(PythonParams(f.parameters), ", ") + ") -> "
         + ToLower(f.returnType) + ":\n"
  {
    var hs := HeaderNodes(f.name, f.parameters, f.returnType);
    var rest := ToNodes(OptionalLayout(f.body));
    PrintedChildren(f);
    BodyKinds(f.body);
    LastOfSkips(hs, rest, "FUNCTION_NAME");
    LastOfSkips(hs, rest, "RETURN_TYPE");
    ParamsOfSkips(hs, rest);
    HeaderNodesRead(f.name, f.parameters, f.returnType);
    PrintedParameters(f.parameters);
  }

  /** The three header nodes the reader returns for a printed definition. */
  function HeaderNodes(name: string, ps: seq<Parameter>, rt: string): seq<Node>
  {
    [AstReader.Node("FUNCTION_NAME", name, []), AstReader.Node("RETURN_TYPE", rt, []),
     AstReader.Node("PARAMETERS", "", ToNodes(ParameterLayouts(ps)))]
  }

  lemma PrintedChildren(f: AstNode)
    requires f.FunctionDef?
    ensures ToNode(Layout(f)).children
      == HeaderNodes(f.name, f.parameters, f.returnType) + ToNodes(OptionalLayout(f.body))
  {
    var head := FunctionHeader(f.name, f.parameters, f.returnType);
    ToNodesThree(head[0], head[1], head[2]);
    assert head == [head[0], head[1], head[2]];
    ToNodesConcat(head, OptionalLayout(f.body));
  }

  lemma BodyKinds(body: Option<AstNode>)
    ensures forall i :: 0 <= i < |ToNodes(OptionalLayout(body))| ==>
      ToNodes(OptionalLayout(body))[i].kind !in {"FUNCTION_NAME", "RETURN_TYPE", "PARAMETERS"}
  {
    if body.Some? {
      LayoutKind(body.value);
      assert [Layout(body.value)][1..] == [];
    }
  }

  lemma HeaderNodesRead(name: string, ps: seq<Parameter>, rt: string)
    ensures ValueOf(HeaderNodes(name, ps, rt), "FUNCTION_NAME") == name
    ensures ValueOf(HeaderNodes(name, ps, rt), "RETURN_TYPE") == rt
    ensures ParamsOf(HeaderNodes(name, ps, rt)) == ParamTexts(ToNodes(ParameterLayouts(ps)))
  {
    var hs := HeaderNodes(name, ps, rt);
    assert hs[..2] == [hs[0], hs[1]] && [hs[0], hs[1]][..1] == [hs[0]];
    assert [hs[0]][..0] == [];
    assert ParamsOf([hs[0]]) == [];
    assert ParamsOf(hs[..2]) == [];
    assert ParamsOf(hs) == [] + ParamTexts(ToNodes(ParameterLayouts(ps)));
  }

  /** Trailing children of another kind do not change which child of a kind is the last. */
  lemma {:induction false} LastOfSkips(p: seq<Node>, rest: seq<Node>, kind: string)
    requires forall i :: 0 <= i < |rest| ==> rest[i].kind != kind
    ensures LastOf(p + rest, kind) == LastOf(p, kind)
    decreases |rest|
  {
    if rest == [] {
      assert p + rest == p;
    } else {
      assert (p + rest)[..|p + rest| - 1] == p + rest[..|rest| - 1];
      LastOfSkips(p, rest[..|rest| - 1], kind);
    }
  }

  /** Trailing children that are not PARAMETERS add no parameter. */
  lemma {:induction false} ParamsOfSkips(p: seq<Node>, rest: seq<Node>)
    requires forall i :: 0 <= i < |rest| ==> rest[i].kind != "PARAMETERS"
    ensures ParamsOf(p + rest) == ParamsOf(p)
    decreases |rest|
  {
    if rest == [] {
      assert p + rest == p;
    } else {
      assert (p + rest)[..|p + rest| - 1] == p + rest[..|rest| - 1];
      ParamsOfSkips(p, rest[..|rest| - 1]);
    }
  }

  lemma {:induction false} ToNodesConcat(a: seq<Outline>, b: seq<Outline>)
    ensures ToNodes(a + b) == ToNodes(a) + ToNodes(b)
    decreases |a|
  {
    if a == [] {
      assert a + b == b;
    } else {
      assert (a + b)[1..] == a[1..] + b;
      ToNodesConcat(a[1..], b);
    }
  }

  // ------------------------------------------------- assignments

  lemma ToNodesTwo(a: Outline, b: Outline)
    ensures ToNodes([a, b]) == [ToNode(a), ToNode(b)]
  {
    assert [a, b][1..] == [b];
    assert [b][1..] == [];
  }

  lemma ToNodesThree(a: Outline, b: Outline, c: Outline)
    ensures ToNodes([a, b, c]) == [ToNode(a), ToNode(b), ToNode(c)]
  {
    assert [a, b, c][1..] == [b, c];
    ToNodesTwo(b, c);
  }

  /** A printed literal translates to its own text. */
  lemma LiteralTranslates(v: string)
    ensures GenExpression(ToNode(Layout(Literal(v)))) == v
  {
  }

  /** A printed operation translates to the simplified text of its translated operands. */
  lemma OperatorTranslates(op: string, l: AstNode, r: AstNode)
    ensures GenExpression(ToNode(Layout(BinaryOperator(op, l, r))))
      == Simplify(GenExpression(ToNode(Layout(l))) + " " + op + " " + GenExpression(ToNode(Layout(r))))
  {
    ToNodesTwo(Layout(l), Layout(r));
  }

  /**
   * A printed assignment translates to one line at the current indentation:
   * the variable, ` = `, and the translated expression simplified once more.
   */
  lemma AssignmentTranslates(x: string, e: AstNode, level: int)
    requires x != "" && level >= 0 && GenExpression(ToNode(Layout(e))) != ""
    ensures GenPython(ToNode(Layout(Assignment(x, Some(e)))), level)
      == Ok(Out(Spaces(level * 4) + x + " = " + Simplify(GenExpression(ToNode(Layout(e)))) + "\n", level))
  {
    var n := ToNode(Layout(Assignment(x, Some(e))));
    var m := ToNode(Layout(e));
    var ident := AstReader.Node("IDENTIFIER", x, []);
    var expr := AstReader.Node("EXPRESSION", "", [m]);
    assert [Layout(e)][1..] == [];
    assert ToNodes([Layout(e)]) == [m];
    assert OptionalLayout(Some(e)) == [Layout(e)];
    ToNodesTwo(Leaf("IDENTIFIER", x), Outline("EXPRESSION", None, [Layout(e)]));
    assert ToNode(Outline("EXPRESSION", None, [Layout(e)])) == expr;
    assert n == AstReader.Node("ASSIGNMENT_EXPRESSION", "", [ident, expr]);
    AssignmentOfChildren(x, m, level);
  }

  /** The generator on an assignment node whose children are the target and a one-child EXPRESSION. */
  lemma AssignmentOfChildren(x: string, m: Node, level: int)
    requires x != "" && level >= 0 && GenExpression(m) != ""
    ensures GenPython(AstReader.Node("ASSIGNMENT_EXPRESSION", "", [AstReader.Node("IDENTIFIER", x, []), AstReader.Node("EXPRESSION", "", [m])]), level)
      == Ok(Out(Spaces(level * 4) + x + " = " + Simplify(GenExpression(m)) + "\n", level))
  {
    var ident := AstReader.Node("IDENTIFIER", x, []);
    var expr := AstReader.Node("EXPRESSION", "", [m]);
    assert [ident, expr][..1] == [ident];
    assert [m][..0] == [] && [m][0] == m;
    assert GenExpressions([m]) == "" + GenExpression(m);
    assert GenExpression(expr) == GenExpression(m);
    assert "EXPRESSION"[0] != "IDENTIFIER"[0];
    assert LastOf([ident, expr], "IDENTIFIER") == LastOf([ident], "IDENTIFIER");
    assert ValueOf([ident, expr], "IDENTIFIER") == x;
  }

  /**
   * `x = a op b` with two integer literals comes out as `x = ` and the literal
   * of the result: the operator is folded, and the second simplification
   * leaves the folded literal alone.
   */
  lemma ConstantAssignmentFolds(x: string, a: int, op: string, b: int, level: int)
    requires x != "" && level >= 0
    requires InIntRange(a) && InIntRange(b) && op in Operators && (op == "/" ==> b != 0)
    ensures GenPython(ToNode(Layout(Assignment(x, Some(BinaryOperator(op, Literal(IntToString(a)), Literal(IntToString(b))))))), level)
      == Ok(Out(Spaces(level * 4) + x + " = " + IntToString(Apply(op, a, b)) + "\n", level))
  {
    var e := BinaryOperator(op, Literal(IntToString(a)), Literal(IntToString(b)));
    OperatorTranslates(op, Literal(IntToString(a)), Literal(IntToString(b)));
    LiteralTranslates(IntToString(a));
    LiteralTranslates(IntToString(b));
    FoldConstants(a, op, b);
    var folded := IntToString(Apply(op, a, b));
    assert GenExpression(ToNode(Layout(e))) == folded;
    AssignmentTranslates(x, e, level);
    SimplifyIdempotent(IntToString(a) + " " + op + " " + IntToString(b));
  }
}
