/**
 * The typed syntax tree of the parser and its debugging printer. Each node
 * prints a line `KIND` or `KIND: value` at its indentation and then its parts
 * two spaces deeper; Layout records, per node class, which lines a node
 * prints and how they nest, and Emit writes that outline out as lines.
 */
module Ast {
  import opened Wrappers
  import opened Text

  datatype Parameter = Parameter(name: string, paramType: string)

  /**
   * A node of the typed tree. A null body, initializer or expression
   * is None; the operands of a binary operator are always present, since
   * printing one dereferences both.
   */
  datatype AstNode =
    | FunctionDef(name: string, parameters: seq<Parameter>, returnType: string, body: Option<AstNode>)
    | Block(statements: seq<AstNode>)
    | VariableDeclaration(varType: string, varName: string, initializer: Option<AstNode>)
    | FunctionCall(functionName: string, arguments: seq<AstNode>)
    | Literal(value: string)
    | Assignment(variableName: string, expression: Option<AstNode>)
    | BinaryOperator(op: string, left: AstNode, right: AstNode)

  /** One printed line, `kind` or `kind: value`, with the lines printed below it. */
  datatype Outline = Outline(kind: string, value: Option<string>, children: seq<Outline>)

  /** A printed line: `indent` spaces, the kind, and `: value` when the node class prints one. */
  function Line(indent: nat, kind: string, value: Option<string>): string
  {
    match value
    case None => Spaces(indent) + kind
    case Some(v) => Spaces(indent) + kind + ": " + v
  }

  function Leaf(kind: string, value: string): Outline
  {
    Outline(kind, Some(value), [])
  }

  function Typed(name: string, typ: string): string
  {
    name + " (TYPE: " + typ + ")"
  }

  function ParameterLayout(p: Parameter): Outline
  {
    Leaf("PARAMETER", Typed(p.name, p.paramType))
  }

  function ParameterLayouts(ps: seq<Parameter>): (os: seq<Outline>)
    ensures |os| == |ps|
  {
    if ps == [] then [] else [ParameterLayout(ps[0])] + ParameterLayouts(ps[1..])
  }

  function OptionalLayout(n: Option<AstNode>): seq<Outline>
    decreases n
  {
    match n
    case None => []
    case Some(m) => [Layout(m)]
  }

  /** The lines each node class prints, as an outline. */
  function Layout(n: AstNode): Outline
    decreases n
  {
    match n
    case FunctionDef(name, params, rt, body) =>
      Outline("FUNCTION_DEFINITION", None, FunctionHeader(name, params, rt) + OptionalLayout(body))
    case Block(stmts) => Outline("FUNCTION_BODY", None, Layouts(stmts))
    case VariableDeclaration(typ, name, init) =>
      Outline("VARIABLE_DECLARATION", None, [Leaf("IDENTIFIER", Typed(name, typ))] + OptionalLayout(init))
    case FunctionCall(f, args) =>
      Outline("FUNCTION_CALL", Some(f),
        if args == [] then [] else [Outline("ARGUMENTS", None, Layouts(args))])
    case Literal(v) => Leaf("LITERAL_VALUE", v)
    case Assignment(x, e) =>
      Outline("ASSIGNMENT_EXPRESSION", None,
        [Leaf("IDENTIFIER", x), Outline("EXPRESSION", None, OptionalLayout(e))])
    case BinaryOperator(op, l, r) => Outline("OPERATOR", Some(op), [Layout(l), Layout(r)])
  }

  function Layouts(ns: seq<AstNode>): (os: seq<Outline>)
    ensures |os| == |ns|
    decreases ns
  {
    if ns == [] then [] else [Layout(ns[0])] + Layouts(ns[1..])
  }

  /** The outline's lines: its own at `indent` spaces, its children's two spaces deeper. */
  function Emit(o: Outline, indent: nat): seq<string>
    decreases o
  {
    [Line(indent, o.kind, o.value)] + EmitAll(o.children, indent + 2)
  }

  function EmitAll(os: seq<Outline>, indent: nat): seq<string>
    decreases os
  {
    if os == [] then [] else Emit(os[0], indent) + EmitAll(os[1..], indent)
  }

  /** `print(indentLevel)` of a node. */
  function Print(n: AstNode, indent: nat): seq<string>
  {
    Emit(Layout(n), indent)
  }

  /** `print(indentLevel)` of a program: each function in turn, at the same indentation. */
  function PrintProgram(functions: seq<AstNode>, indent: nat): seq<string>
  {
    EmitAll(Layouts(functions), indent)
  }

  // ------------------------------------------------------------ properties

  /** A line indented by at least `indent` spaces. */
  predicate IndentedBy(line: string, indent: nat)
  {
    indent <= |line| && forall i :: 0 <= i < indent ==> line[i] == ' '
  }

  lemma {:induction false} EmitAllAppend(a: seq<Outline>, b: seq<Outline>, indent: nat)
    ensures EmitAll(a + b, indent) == EmitAll(a, indent) + EmitAll(b, indent)
    decreases a
  {
    if a == [] {
      assert a + b == b;
    } else {
      assert (a + b)[0] == a[0];
      assert (a + b)[1..] == a[1..] + b;
      EmitAllAppend(a[1..], b, indent);
    }
  }

  lemma {:induction false} LayoutsAppend(a: seq<AstNode>, b: seq<AstNode>)
    ensures Layouts(a + b) == Layouts(a) + Layouts(b)
    decreases a
  {
    if a == [] {
      assert a + b == b;
    } else {
      assert (a + b)[0] == a[0];
      assert (a + b)[1..] == a[1..] + b;
      LayoutsAppend(a[1..], b);
    }
  }

  /**
   * A node prints its own line at exactly its indentation, and every line
   * below it at least two spaces deeper: this is what lets the lines be read
   * back into the same tree.
   */
  lemma {:induction false} EmitIndentation(o: Outline, indent: nat)
    ensures var lines := Emit(o, indent);
      |lines| > 0 && lines[0] == Line(indent, o.kind, o.value)
      && forall i :: 1 <= i < |lines| ==> IndentedBy(lines[i], indent + 2)
    decreases o, 1
  {
    EmitAllIndentation(o.children, indent + 2);
  }

  lemma {:induction false} EmitAllIndentation(os: seq<Outline>, indent: nat)
    ensures forall i :: 0 <= i < |EmitAll(os, indent)| ==> IndentedBy(EmitAll(os, indent)[i], indent)
    decreases os, 0
  {
    if os != [] {
      EmitIndentation(os[0], indent);
      EmitAllIndentation(os[1..], indent);
      var first := Emit(os[0], indent);
      assert IndentedBy(first[0], indent);
      forall i | 1 <= i < |first| ensures IndentedBy(first[i], indent) {
        assert IndentedBy(first[i], indent + 2);
      }
    }
  }

  lemma EmitLeaf(o: Outline, indent: nat)
    requires o.children == []
    ensures Emit(o, indent) == [Line(indent, o.kind, o.value)]
  {
    assert Emit(o, indent) == [Line(indent, o.kind, o.value)] + [];
  }

  lemma EmitAllOne(o: Outline, indent: nat)
    ensures EmitAll([o], indent) == Emit(o, indent)
  {
    assert [o][1..] == [];
    assert EmitAll([o], indent) == Emit(o, indent) + [];
  }

  /** A literal prints exactly one line. */
  lemma LiteralPrintsOneLine(v: string, indent: nat)
    ensures Print(Literal(v), indent) == [Line(indent, "LITERAL_VALUE", Some(v))]
  {
    EmitLeaf(Leaf("LITERAL_VALUE", v), indent);
  }

  /**
   * A call prints an ARGUMENTS line, with its arguments four spaces deeper
   * than the call, only when it has at least one argument.
   */
  lemma FunctionCallArguments(f: string, args: seq<AstNode>, indent: nat)
    ensures args == [] ==> Print(FunctionCall(f, args), indent) == [Line(indent, "FUNCTION_CALL", Some(f))]
    ensures args != [] ==>
      Print(FunctionCall(f, args), indent)
      == [Line(indent, "FUNCTION_CALL", Some(f)), Line(indent + 2, "ARGUMENTS", None)] + PrintProgram(args, indent + 4)
  {
    if args == [] {
      EmitLeaf(Layout(FunctionCall(f, args)), indent);
    } else {
      EmitAllOne(Outline("ARGUMENTS", None, Layouts(args)), indent + 2);
    }
  }

  /** An operator prints in pre-order: its own line, then the left operand, then the right one. */
  lemma BinaryOperatorPreOrder(op: string, l: AstNode, r: AstNode, indent: nat)
    ensures Print(BinaryOperator(op, l, r), indent)
      == [Line(indent, "OPERATOR", Some(op))] + Print(l, indent + 2) + Print(r, indent + 2)
  {
    var os := [Layout(l), Layout(r)];
    assert os[1..] == [Layout(r)];
    EmitAllOne(Layout(r), indent + 2);
    assert EmitAll(os, indent + 2) == Print(l, indent + 2) + Print(r, indent + 2);
  }

  /** A block prints FUNCTION_BODY, then each statement in order two spaces deeper. */
  lemma BlockLines(stmts: seq<AstNode>, indent: nat)
    ensures Print(Block(stmts), indent) == [Line(indent, "FUNCTION_BODY", None)] + PrintProgram(stmts, indent + 2)
  {
  }

  /**
   * An assignment prints its own line, the IDENTIFIER and EXPRESSION lines two
   * spaces deeper, and the expression (if any) four spaces deeper.
   */
  lemma AssignmentLines(x: string, e: Option<AstNode>, indent: nat)
    ensures Print(Assignment(x, e), indent)
      == [Line(indent, "ASSIGNMENT_EXPRESSION", None), Line(indent + 2, "IDENTIFIER", Some(x)),
          Line(indent + 2, "EXPRESSION", None)]
         + (if e.Some? then Print(e.value, indent + 4) else [])
  {
    var id, ex := Leaf("IDENTIFIER", x), Outline("EXPRESSION", None, OptionalLayout(e));
    EmitAllAppend([id], [ex], indent + 2);
    EmitAllOne(id, indent + 2);
    EmitAllOne(ex, indent + 2);
    EmitLeaf(id, indent + 2);
    EmitOptional(e, indent + 4);
    assert [id, ex] == [id] + [ex];
  }

  /**
   * A declaration prints its own line, the `IDENTIFIER: name (TYPE: type)`
   * line two spaces deeper, and the initializer (if any) two spaces deeper.
   */
  lemma VariableDeclarationLines(typ: string, name: string, init: Option<AstNode>, indent: nat)
    ensures Print(VariableDeclaration(typ, name, init), indent)
      == [Line(indent, "VARIABLE_DECLARATION", None), Line(indent + 2, "IDENTIFIER", Some(name + " (TYPE: " + typ + ")"))]
         + (if init.Some? then Print(init.value, indent + 2) else [])
  {
    var id := Leaf("IDENTIFIER", Typed(name, typ));
    EmitAllAppend([id], OptionalLayout(init), indent + 2);
    EmitAllOne(id, indent + 2);
    EmitLeaf(id, indent + 2);
    EmitOptional(init, indent + 2);
  }

  /**
   * A function prints its header lines, one PARAMETER line per parameter in
   * order four spaces deeper, and then its body (if any) two spaces deeper.
   */
  lemma FunctionDefinitionLines(name: string, params: seq<Parameter>, rt: string, body: Option<AstNode>, indent: nat)
    ensures Print(FunctionDef(name, params, rt, body), indent)
      == [Line(indent, "FUNCTION_DEFINITION", None),
          Line(indent + 2, "FUNCTION_NAME", Some(name)),
          Line(indent + 2, "RETURN_TYPE", Some(rt)),
          Line(indent + 2, "PARAMETERS", None)]
         + ParameterLines(params, indent + 4)
         + (if body.Some? then Print(body.value, indent + 2) else [])
  {
    var first := Line(indent, "FUNCTION_DEFINITION", None);
    var text, ps, rest := FunctionHeaderText(name, rt, indent + 2), ParameterLines(params, indent + 4),
      EmitAll(OptionalLayout(body), indent + 2);
    DefinitionParts(name, params, rt, body, indent);
    EmitOptional(body, indent + 2);
    SeqAssoc4([first], text, ps, rest);
  }

  /** The definition's line, then its header outlines and its body's outline, two spaces deeper. */
  lemma DefinitionParts(name: string, params: seq<Parameter>, rt: string, body: Option<AstNode>, indent: nat)
    ensures Print(FunctionDef(name, params, rt, body), indent)
      == [Line(indent, "FUNCTION_DEFINITION", None)]
         + (FunctionHeaderText(name, rt, indent + 2) + ParameterLines(params, indent + 4)
            + EmitAll(OptionalLayout(body), indent + 2))
  {
    var head, opt := FunctionHeader(name, params, rt), OptionalLayout(body);
    assert Print(FunctionDef(name, params, rt, body), indent)
      == [Line(indent, "FUNCTION_DEFINITION", None)] + EmitAll(head + opt, indent + 2);
    EmitAllAppend(head, opt, indent + 2);
    FunctionHeaderLines(name, params, rt, indent + 2);
  }

  lemma SeqAssoc4<T>(a: seq<T>, b: seq<T>, c: seq<T>, d: seq<T>)
    ensures a + ((b + c) + d) == (a + b) + c + d
  {
  }

  function FunctionHeaderText(name: string, rt: string, indent: nat): seq<string>
  {
    [Line(indent, "FUNCTION_NAME", Some(name)), Line(indent, "RETURN_TYPE", Some(rt)), Line(indent, "PARAMETERS", None)]
  }

  lemma EmitOptional(n: Option<AstNode>, indent: nat)
    ensures EmitAll(OptionalLayout(n), indent) == if n.Some? then Print(n.value, indent) else []
  {
    if n.Some? {
      EmitAllOne(OptionalLayout(n)[0], indent);
    }
  }

  function FunctionHeader(name: string, params: seq<Parameter>, rt: string): seq<Outline>
  {
    [Leaf("FUNCTION_NAME", name), Leaf("RETURN_TYPE", rt), Outline("PARAMETERS", None, ParameterLayouts(params))]
  }

  lemma FunctionHeaderLines(name: string, params: seq<Parameter>, rt: string, indent: nat)
    ensures EmitAll(FunctionHeader(name, params, rt), indent)
      == FunctionHeaderText(name, rt, indent) + ParameterLines(params, indent + 2)
  {
    var head := FunctionHeader(name, params, rt);
    var n, t, ps := head[0], head[1], head[2];
    assert head == [n] + ([t] + [ps]);
    EmitAllAppend([n], [t] + [ps], indent);
    EmitAllAppend([t], [ps], indent);
    EmitAllOne(n, indent);
    EmitAllOne(t, indent);
    EmitAllOne(ps, indent);
    EmitLeaf(n, indent);
    EmitLeaf(t, indent);
    ParameterLinesOf(params, indent + 2);
  }

  /** The PARAMETER lines of a parameter list: `name (TYPE: type)`, one per parameter, in order. */
  function ParameterLines(ps: seq<Parameter>, indent: nat): (lines: seq<string>)
    ensures |lines| == |ps|
  {
    if ps == [] then [] else [Line(indent, "PARAMETER", Some(Typed(ps[0].name, ps[0].paramType)))] + ParameterLines(ps[1..], indent)
  }

  lemma {:induction false} ParameterLinesOf(ps: seq<Parameter>, indent: nat)
    ensures EmitAll(ParameterLayouts(ps), indent) == ParameterLines(ps, indent)
    decreases ps
  {
    if ps != [] {
      var os := ParameterLayouts(ps);
      assert os[1..] == ParameterLayouts(ps[1..]);
      assert Emit(os[0], indent) == [Line(indent, "PARAMETER", Some(Typed(ps[0].name, ps[0].paramType)))] + EmitAll([], indent);
      ParameterLinesOf(ps[1..], indent);
    }
  }

  // -------------------------------------------------------- node builders

  /** The program: the functions added so far, in order. */
  class ProgramNode {
    var functions: seq<AstNode>

    constructor ()
      ensures functions == []
    {
      functions := [];
    }

    /** `addFunction`: appends at the end, so the program prints the new function last. */
    method AddFunction(f: AstNode)
      modifies this
      ensures functions == old(functions) + [f]
      ensures forall indent: nat ::
        PrintProgram(functions, indent) == PrintProgram(old(functions), indent) + Print(f, indent)
    {
      functions := functions + [f];
      forall indent: nat
        ensures PrintProgram(functions, indent) == PrintProgram(old(functions), indent) + Print(f, indent)
      {
        LayoutsAppend(old(functions), [f]);
        EmitAllAppend(Layouts(old(functions)), Layouts([f]), indent);
        assert EmitAll(Layouts([f]), indent) == Emit(Layout(f), indent) + EmitAll([], indent);
      }
    }
  }

  /** A block under construction: the statements added so far, in order. */
  class BlockNode {
    var statements: seq<AstNode>

    constructor ()
      ensures statements == []
    {
      statements := [];
    }

    function Value(): AstNode
      reads this
    {
      Block(statements)
    }

    /** `addStatement`: appends at the end and leaves the earlier statements as they were. */
    method AddStatement(s: AstNode)
      modifies this
      ensures statements == old(statements) + [s]
      ensures Print(Value(), 0) == Print(old(Value()), 0) + Print(s, 2)
    {
      statements := statements + [s];
      LayoutsAppend(old(statements), [s]);
      EmitAllAppend(Layouts(old(statements)), Layouts([s]), 2);
      assert EmitAll(Layouts([s]), 2) == Emit(Layout(s), 2) + EmitAll([], 2);
    }
  }

  /** A call under construction: its callee and the arguments added so far, in order. */
  class FunctionCallNode {
    const functionName: string
    var arguments: seq<AstNode>

    constructor (functionName: string)
      ensures this.functionName == functionName && arguments == []
    {
      this.functionName := functionName;
      arguments := [];
    }

    function Value(): AstNode
      reads this
    {
      FunctionCall(functionName, arguments)
    }

    /** `addArgument`: appends at the end and leaves the earlier arguments as they were. */
    method AddArgument(a: AstNode)
      modifies this
      ensures arguments == old(arguments) + [a]
      ensures old(arguments) != [] ==> Print(Value(), 0) == Print(old(Value()), 0) + Print(a, 4)
      ensures old(arguments) == [] ==>
        Print(Value(), 0) == Print(old(Value()), 0) + [Line(2, "ARGUMENTS", None)] + Print(a, 4)
    {
      arguments := arguments + [a];
      FunctionCallArguments(functionName, old(arguments), 0);
      FunctionCallArguments(functionName, arguments, 0);
      LayoutsAppend(old(arguments), [a]);
      EmitAllAppend(Layouts(old(arguments)), Layouts([a]), 4);
      assert EmitAll(Layouts([a]), 4) == Emit(Layout(a), 4) + EmitAll([], 4);
    }
  }
}
