/**
 * Printing a syntax tree and reading the lines back gives the same tree:
 * each printed line becomes a node of the same kind and value, and each node
 * lands under the node printed two spaces less deep above it.
 *
 * The proof follows the reader along the rightmost spine of the tree it
 * builds. While it reads printed lines, its stack is exactly the path to each
 * node of that spine, from the root down to the node it added last.
 */
module RoundTrip {
  import opened Wrappers
  import opened Text
  import opened Ast
  import opened AstReader

  /** The generic node a printed outline reads back as. */
  function ToNode(o: Outline): Node
    decreases o, 1
  {
    Node(o.kind, match o.value case None => "" case Some(v) => v, ToNodes(o.children))
  }

  function ToNodes(os: seq<Outline>): (ns: seq<Node>)
    ensures |ns| == |os|
    decreases os, 0
  {
    if os == [] then [] else [ToNode(os[0])] + ToNodes(os[1..])
  }

  /** A kind that reads back unchanged: not empty, not starting with a blank, no colon. */
  predicate GoodKind(k: string)
  {
    k != [] && k[0] != ' ' && k[0] != '\t' && ':' !in k
  }

  predicate Good(o: Outline)
    decreases o, 1
  {
    GoodKind(o.kind) && AllGood(o.children)
  }

  predicate AllGood(os: seq<Outline>)
    decreases os, 0
  {
    forall i :: 0 <= i < |os| ==> Good(os[i])
  }

  // ------------------------------------------------------------- one line

  /** A line of `n` spaces and then a text that starts with neither a space nor a tab. */
  lemma LeadingSpacesOf(n: nat, text: string)
    requires text != [] && text[0] != ' ' && text[0] != '\t'
    ensures LeadingSpaces(Spaces(n) + text) == n
  {
    assert (Spaces(n) + text)[n] == text[0];
  }

  lemma FirstNonBlankOf(n: nat, text: string)
    requires text != [] && text[0] != ' ' && text[0] != '\t'
    ensures FindFirstNotOf(Spaces(n) + text, {' ', '\t'}) == Some(n)
  {
    assert (Spaces(n) + text)[n] == text[0];
  }

  lemma ParseIndentedKind(n: nat, text: string)
    requires text != [] && text[0] != ' ' && text[0] != '\t' && ':' !in text
    ensures ParseLine(Spaces(n) + text) == Ok(Some(Entry(n / 2, Node(text, "", []))))
  {
    LeadingSpacesOf(n, text);
    FirstNonBlankOf(n, text);
    assert (Spaces(n) + text)[n..] == text;
  }

  lemma ParseIndentedPair(n: nat, text: string, c: nat)
    requires text != [] && text[0] != ' ' && text[0] != '\t'
    requires FindChar(text, ':') == Some(c) && c + 2 <= |text|
    ensures ParseLine(Spaces(n) + text) == Ok(Some(Entry(n / 2, Node(text[..c], text[c + 2..], []))))
  {
    LeadingSpacesOf(n, text);
    FirstNonBlankOf(n, text);
    assert (Spaces(n) + text)[n..] == text;
  }

  /** The kind and value of a printed `kind: value` text. */
  lemma ColonSplit(kind: string, v: string)
    requires ':' !in kind
    ensures FindChar(kind + ": " + v, ':') == Some(|kind|)
    ensures (kind + ": " + v)[..|kind|] == kind && (kind + ": " + v)[|kind| + 2..] == v
  {
    var text := kind + ": " + v;
    assert text[|kind|] == ':';
    assert forall j :: 0 <= j < |kind| ==> text[j] == kind[j];
  }

  /** A printed line reads back as its level, kind and value. */
  lemma ParseLineOf(level: nat, indent: nat, kind: string, value: Option<string>)
    requires GoodKind(kind) && indent == 2 * level
    ensures ParseLine(Line(indent, kind, value))
         == Ok(Some(Entry(level, Node(kind, match value case None => "" case Some(v) => v, []))))
  {
    match value
    case None =>
      ParseIndentedKind(2 * level, kind);
    case Some(v) =>
      ParseValueLine(level, kind, v);
  }

  lemma Regroup(a: string, b: string, c: string, d: string)
    ensures a + b + c + d == a + (b + c + d)
  {
  }

  lemma ParseValueLine(level: nat, kind: string, v: string)
    requires GoodKind(kind)
    ensures ParseLine(Line(2 * level, kind, Some(v))) == Ok(Some(Entry(level, Node(kind, v, []))))
  {
    var text := kind + ": " + v;
    Regroup(Spaces(2 * level), kind, ": ", v);
    assert Line(2 * level, kind, Some(v)) == Spaces(2 * level) + text;
    ColonSplit(kind, v);
    assert text != [] && text[0] != ' ' && text[0] != '\t';
    assert FindChar(text, ':') == Some(|kind|) && |kind| + 2 <= |text|;
    ParseIndentedPair(2 * level, text, |kind|);
    assert (2 * level) / 2 == level;
    assert text[..|kind|] == kind && text[|kind| + 2..] == v;
    assert ParseLine(Spaces(2 * level) + text) == Ok(Some(Entry(level, Node(kind, v, []))));
  }

  /** Reading a line that parses to an entry is one Step. */
  lemma ReadEntry(s: Reader, line: string, e: Entry, tail: seq<string>)
    requires ParseLine(line) == Ok(Some(e))
    ensures ReadFrom(s, [line] + tail) == ReadFrom(Step(s, e), tail)
  {
    assert ([line] + tail)[1..] == tail;
  }

  // ------------------------------------------------------ the right spine

  function LastChild(r: Node): Node
    requires r.children != []
  {
    r.children[|r.children| - 1]
  }

  /** The number of last-child steps from r down to its rightmost leaf. */
  function RightDepth(r: Node): nat
    decreases r
  {
    if r.children == [] then 0 else 1 + RightDepth(LastChild(r))
  }

  /** The path of k last-child steps from r. */
  function RightPath(r: Node, k: nat): (p: Path)
    decreases r
  {
    if k == 0 || r.children == [] then [] else [|r.children| - 1] + RightPath(LastChild(r), k - 1)
  }

  /** The reader's stack while it sits on the spine: one path per level 0..k. */
  function SpineStack(r: Node, k: nat): (s: seq<Option<Path>>)
    ensures |s| == k + 1
  {
    if k == 0 then [Some([])] else SpineStack(r, k - 1) + [Some(RightPath(r, k))]
  }

  /** A reader on the spine of r whose previous line had level prev. */
  function Spine(r: Node, prev: int): Reader
    requires prev >= -1
  {
    Reader(r, SpineStack(r, prev + 1), prev)
  }

  /** Appending nodes to the children of the spine node at depth `depth`. */
  function AppendAtDepth(r: Node, depth: nat, ns: seq<Node>): Node
    decreases r
  {
    if depth == 0 then r.(children := r.children + ns)
    else if r.children == [] then r
    else r.(children := r.children[|r.children| - 1 := AppendAtDepth(LastChild(r), depth - 1, ns)])
  }

  lemma {:induction false} AppendNothing(r: Node, depth: nat)
    ensures AppendAtDepth(r, depth, []) == r
    decreases r
  {
    if depth == 0 {
      assert r.children + [] == r.children;
    } else if r.children != [] {
      AppendNothing(LastChild(r), depth - 1);
      assert r.children[|r.children| - 1 := LastChild(r)] == r.children;
    }
  }

  lemma {:induction false} AppendTwice(r: Node, depth: nat, a: seq<Node>, b: seq<Node>)
    ensures AppendAtDepth(AppendAtDepth(r, depth, a), depth, b) == AppendAtDepth(r, depth, a + b)
    decreases r
  {
    if depth == 0 {
      assert r.children + a + b == r.children + (a + b);
    } else if r.children != [] {
      AppendTwice(LastChild(r), depth - 1, a, b);
    }
  }

  /** Appending under a node just appended, one level deeper, is appending to that node's children. */
  lemma {:induction false} AppendNested(r: Node, depth: nat, x: Node, ns: seq<Node>)
    requires depth <= RightDepth(r)
    ensures AppendAtDepth(AppendAtDepth(r, depth, [x]), depth + 1, ns)
         == AppendAtDepth(r, depth, [x.(children := x.children + ns)])
    decreases r
  {
    if depth == 0 {
      var r1 := AppendAtDepth(r, 0, [x]);
      assert LastChild(r1) == x;
      assert r1.children[|r1.children| - 1 := x.(children := x.children + ns)]
          == r.children + [x.(children := x.children + ns)];
    } else {
      AppendNested(LastChild(r), depth - 1, x, ns);
    }
  }

  lemma {:induction false} RightDepthAfterAppend(r: Node, depth: nat, ns: seq<Node>)
    requires depth <= RightDepth(r) && ns != []
    ensures RightDepth(AppendAtDepth(r, depth, ns)) == depth + 1 + RightDepth(ns[|ns| - 1])
    decreases r
  {
    if depth == 0 {
      assert LastChild(AppendAtDepth(r, 0, ns)) == ns[|ns| - 1];
    } else {
      RightDepthAfterAppend(LastChild(r), depth - 1, ns);
    }
  }

  /** The spine down to depth `depth` is untouched by an append there. */
  lemma {:induction false} RightPathKept(r: Node, depth: nat, n: Node, k: nat)
    requires depth <= RightDepth(r) && k <= depth
    ensures RightPath(AppendAtDepth(r, depth, [n]), k) == RightPath(r, k)
    decreases r
  {
    if depth > 0 && k > 0 {
      RightPathKept(LastChild(r), depth - 1, n, k - 1);
    }
  }

  /** The node appended at depth `depth` extends the spine by one step. */
  lemma {:induction false} RightPathExtended(r: Node, depth: nat, n: Node)
    requires depth <= RightDepth(r)
    ensures RightPath(AppendAtDepth(r, depth, [n]), depth + 1)
         == RightPath(r, depth) + [ChildCount(r, RightPath(r, depth))]
    decreases r
  {
    var r' := AppendAtDepth(r, depth, [n]);
    if depth == 0 {
      assert RightPath(r', 1) == [|r.children|] + RightPath(n, 0);
    } else {
      RightPathExtended(LastChild(r), depth - 1, n);
    }
  }

  /** Appending at the spine node of depth `depth` is appending at the end of its path. */
  lemma {:induction false} AppendAtSpine(r: Node, depth: nat, n: Node)
    requires depth <= RightDepth(r)
    ensures AppendAt(r, RightPath(r, depth), n) == AppendAtDepth(r, depth, [n])
    decreases r
  {
    if depth > 0 {
      var p := RightPath(r, depth);
      assert p[0] == |r.children| - 1 && p[1..] == RightPath(LastChild(r), depth - 1);
      AppendAtSpine(LastChild(r), depth - 1, n);
    }
  }

  /** Entry i of the spine stack is the path of i last-child steps. */
  lemma {:induction false} SpineStackAt(r: Node, k: nat, i: nat)
    requires i <= k
    ensures SpineStack(r, k)[i] == Some(RightPath(r, i))
  {
    if i < k {
      SpineStackAt(r, k - 1, i);
    }
  }

  lemma {:induction false} SpineStackPrefix(r: Node, k: nat, j: nat)
    requires j <= k
    ensures SpineStack(r, k)[..j + 1] == SpineStack(r, j)
  {
    if j < k {
      SpineStackPrefix(r, k - 1, j);
      assert SpineStack(r, k)[..k] == SpineStack(r, k - 1);
    }
  }

  /** One line at level `level` read on the spine: popped to depth `level`, appended, and on the new spine. */
  lemma StepOnSpine(r: Node, prev: int, level: nat, n: Node)
    requires -1 <= prev && level <= prev + 1 <= RightDepth(r)
    ensures Step(Spine(r, prev), Entry(level, n)) == Spine(AppendAtDepth(r, level, [n]), level)
  {
    var stack := SpineStack(r, prev + 1);
    var popped := PopWhile(stack, prev, level);
    SpineStackPrefix(r, prev + 1, level);
    assert popped.0 == SpineStack(r, level);
    var p := RightPath(r, level);
    SpineStackAt(r, level, level);
    assert popped.0[|popped.0| - 1] == Some(p);
    AppendAtSpine(r, level, n);
    var r' := AppendAtDepth(r, level, [n]);
    var s' := SpineStack(r, level) + [Some(p + [ChildCount(r, p)])];
    forall i | 0 <= i <= level + 1
      ensures s'[i] == SpineStack(r', level + 1)[i]
    {
      SpineStackAt(r', level + 1, i);
      if i <= level {
        SpineStackAt(r, level, i);
        RightPathKept(r, level, n, i);
      } else {
        RightPathExtended(r, level, n);
      }
    }
    assert s' == SpineStack(r', level + 1);
  }

  // ------------------------------------------------------- whole outlines

  // ------------------------------------------------ lines become entries

  /** The node of an outline's first line, before its children are read. */
  function Head(o: Outline): Node
  {
    Node(o.kind, match o.value case None => "" case Some(v) => v, [])
  }

  /** The entries the printed lines of an outline at level `level` read as, in order. */
  function Entries(o: Outline, level: nat): seq<Entry>
    decreases o, 1
  {
    [Entry(level, Head(o))] + EntriesAll(o.children, level + 1)
  }

  function EntriesAll(os: seq<Outline>, level: nat): seq<Entry>
    decreases os, 0
  {
    if os == [] then [] else Entries(os[0], level) + EntriesAll(os[1..], level)
  }

  /** The reading loop over entries already parsed. */
  function StepAll(s: Reader, es: seq<Entry>): Reader
    decreases |es|
  {
    if es == [] then s else StepAll(Step(s, es[0]), es[1..])
  }

  lemma {:induction false} StepAllAppend(s: Reader, a: seq<Entry>, b: seq<Entry>)
    ensures StepAll(s, a + b) == StepAll(StepAll(s, a), b)
    decreases |a|
  {
    if a != [] {
      assert (a + b)[0] == a[0] && (a + b)[1..] == a[1..] + b;
      assert StepAll(s, a + b) == StepAll(Step(s, a[0]), a[1..] + b);
      StepAllAppend(Step(s, a[0]), a[1..], b);
    } else {
      assert a + b == b;
    }
  }

  lemma StepAllCons(s: Reader, e: Entry, es: seq<Entry>)
    ensures StepAll(s, [e] + es) == StepAll(Step(s, e), es)
  {
    assert ([e] + es)[0] == e && ([e] + es)[1..] == es;
  }

  lemma EmitThen(o: Outline, indent: nat, rest: seq<string>)
    ensures Emit(o, indent) + rest == [Line(indent, o.kind, o.value)] + (EmitAll(o.children, indent + 2) + rest)
  {
  }

  /** Reading the printed lines of an outline is stepping through its entries, from any reader state. */
  lemma {:induction false} ReadEmitted(s: Reader, o: Outline, level: nat, indent: nat, rest: seq<string>)
    requires Good(o) && indent == 2 * level
    ensures ReadFrom(s, Emit(o, indent) + rest) == ReadFrom(StepAll(s, Entries(o, level)), rest)
    decreases o, 1
  {
    var e := Entry(level, Head(o));
    var tail := EmitAll(o.children, indent + 2) + rest;
    assert ReadFrom(s, Emit(o, indent) + rest) == ReadFrom(Step(s, e), tail) by {
      EmitThen(o, indent, rest);
      ParseLineOf(level, indent, o.kind, o.value);
      ReadEntry(s, Line(indent, o.kind, o.value), e, tail);
    }
    ReadEmittedAll(Step(s, e), o.children, level + 1, indent + 2, rest);
    StepAllCons(s, e, EntriesAll(o.children, level + 1));
  }

  lemma {:induction false} ReadEmittedAll(s: Reader, os: seq<Outline>, level: nat, indent: nat, rest: seq<string>)
    requires AllGood(os) && indent == 2 * level
    ensures ReadFrom(s, EmitAll(os, indent) + rest) == ReadFrom(StepAll(s, EntriesAll(os, level)), rest)
    decreases os, 0
  {
    if os == [] {
      assert EmitAll(os, indent) + rest == rest;
    } else {
      var more := EmitAll(os[1..], indent) + rest;
      assert EmitAll(os, indent) + rest == Emit(os[0], indent) + more;
      ReadEmitted(s, os[0], level, indent, more);
      var s1 := StepAll(s, Entries(os[0], level));
      ReadEmittedAll(s1, os[1..], level, indent, rest);
      StepAllAppend(s, Entries(os[0], level), EntriesAll(os[1..], level));
    }
  }

  // ---------------------------------------------- entries build the tree

  /** The previous level after nodes `ns` were appended at depth `level`: the depth of the last line read. */
  function SpineEnd(level: nat, ns: seq<Node>, prev: int): int
  {
    if ns == [] then prev else level + RightDepth(ns[|ns| - 1])
  }

  /**
   * Stepping, on the spine, through the entries of an outline at level
   * `level` appends its node at depth `level` and leaves the reader on the
   * new spine at the level of the outline's last line.
   */
  lemma {:induction false} StepOutline(o: Outline, level: nat, r: Node, prev: int)
    requires -1 <= prev && level <= prev + 1 <= RightDepth(r)
    ensures StepAll(Spine(r, prev), Entries(o, level))
         == Spine(AppendAtDepth(r, level, [ToNode(o)]), level + RightDepth(ToNode(o)))
    decreases o, 1
  {
    var r1 := AppendAtDepth(r, level, [Head(o)]);
    var kids := ToNodes(o.children);
    StepHead(o, level, r, prev);
    StepOutlines(o.children, level + 1, r1, level);
    BuiltOutline(o, level, r);
    SpineEndOfOutline(o, level);
    var built := Spine(AppendAtDepth(r1, level + 1, kids), SpineEnd(level + 1, kids, level));
    var target := Spine(AppendAtDepth(r, level, [ToNode(o)]), level + RightDepth(ToNode(o)));
    assert built == target;
  }

  /** The outline's own line: one step appends its head, childless, at depth `level`. */
  lemma StepHead(o: Outline, level: nat, r: Node, prev: int)
    requires -1 <= prev && level <= prev + 1 <= RightDepth(r)
    ensures StepAll(Spine(r, prev), Entries(o, level))
         == StepAll(Spine(AppendAtDepth(r, level, [Head(o)]), level), EntriesAll(o.children, level + 1))
    ensures RightDepth(AppendAtDepth(r, level, [Head(o)])) == level + 1
  {
    var x := Head(o);
    StepAllCons(Spine(r, prev), Entry(level, x), EntriesAll(o.children, level + 1));
    StepOnSpine(r, prev, level, x);
    RightDepthAfterAppend(r, level, [x]);
  }

  /** The head appended, then the children one level deeper: the outline's node appended. */
  lemma BuiltOutline(o: Outline, level: nat, r: Node)
    requires level <= RightDepth(r)
    ensures AppendAtDepth(AppendAtDepth(r, level, [Head(o)]), level + 1, ToNodes(o.children))
         == AppendAtDepth(r, level, [ToNode(o)])
  {
    var x := Head(o);
    AppendNested(r, level, x, ToNodes(o.children));
    assert x.(children := x.children + ToNodes(o.children)) == ToNode(o);
  }

  lemma SpineEndOfOutline(o: Outline, level: nat)
    ensures SpineEnd(level + 1, ToNodes(o.children), level) == level + RightDepth(ToNode(o))
  {
  }

  lemma {:induction false} StepOutlines(os: seq<Outline>, level: nat, r: Node, prev: int)
    requires -1 <= prev && level <= prev + 1 <= RightDepth(r)
    ensures StepAll(Spine(r, prev), EntriesAll(os, level))
         == Spine(AppendAtDepth(r, level, ToNodes(os)), SpineEnd(level, ToNodes(os), prev))
    decreases os, 1
  {
    if os == [] {
      assert EntriesAll(os, level) == [] && ToNodes(os) == [];
      AppendNothing(r, level);
      assert AppendAtDepth(r, level, ToNodes(os)) == r;
    } else {
      var n0 := ToNode(os[0]);
      var r1 := AppendAtDepth(r, level, [n0]);
      var p1 := level + RightDepth(n0);
      assert RightDepth(r1) == p1 + 1 by {
        RightDepthAfterAppend(r, level, [n0]);
      }
      StepOutlines(os[1..], level, r1, p1);
      FirstThenRest(os, level, r, prev);
      StepFirst(os, level, r, prev, r1, p1);
    }
  }

  /** The entries of the first outline leave the reader on the spine with its node appended. */
  lemma {:induction false} StepFirst(os: seq<Outline>, level: nat, r: Node, prev: int, r1: Node, p1: int)
    requires os != [] && -1 <= prev && level <= prev + 1 <= RightDepth(r)
    requires r1 == AppendAtDepth(r, level, [ToNode(os[0])]) && p1 == level + RightDepth(ToNode(os[0]))
    ensures StepAll(Spine(r, prev), EntriesAll(os, level)) == StepAll(Spine(r1, p1), EntriesAll(os[1..], level))
    decreases os, 0
  {
    var s0 := Spine(r, prev);
    StepAllAppend(s0, Entries(os[0], level), EntriesAll(os[1..], level));
    StepOutline(os[0], level, r, prev);
  }

  /** Appending the first node and then the rest is appending all of them. */
  lemma FirstThenRest(os: seq<Outline>, level: nat, r: Node, prev: int)
    requires os != []
    ensures AppendAtDepth(AppendAtDepth(r, level, [ToNode(os[0])]), level, ToNodes(os[1..]))
         == AppendAtDepth(r, level, ToNodes(os))
    ensures SpineEnd(level, ToNodes(os[1..]), level + RightDepth(ToNode(os[0])))
         == SpineEnd(level, ToNodes(os), prev)
  {
    var n0 := ToNode(os[0]);
    AppendTwice(r, level, [n0], ToNodes(os[1..]));
    assert [n0] + ToNodes(os[1..]) == ToNodes(os);
  }

  // ----------------------------------------------------- printed programs

  lemma GoodOutline(kind: string, value: Option<string>, cs: seq<Outline>)
    requires GoodKind(kind) && AllGood(cs)
    ensures Good(Outline(kind, value, cs))
  {
  }

  lemma AllGoodConcat(a: seq<Outline>, b: seq<Outline>)
    requires AllGood(a) && AllGood(b)
    ensures AllGood(a + b)
  {
    assert forall i :: 0 <= i < |a + b| ==> (a + b)[i] == if i < |a| then a[i] else b[i - |a|];
  }

  lemma AllGoodPair(x: Outline, y: Outline)
    requires Good(x) && Good(y)
    ensures AllGood([x, y])
  {
  }

  /** Every kind a node class prints reads back unchanged. */
  lemma {:induction false} LayoutGood(n: AstNode)
    ensures Good(Layout(n))
    decreases n, 1
  {
    match n
    case FunctionDef(name, params, rt, body) =>
      ParameterLayoutsGood(params);
      OptionalLayoutGood(body);
      FunctionHeaderGood(name, params, rt);
      AllGoodConcat(FunctionHeader(name, params, rt), OptionalLayout(body));
      GoodOutline("FUNCTION_DEFINITION", None, FunctionHeader(name, params, rt) + OptionalLayout(body));
    case Block(stmts) =>
      LayoutsGood(stmts);
      GoodOutline("FUNCTION_BODY", None, Layouts(stmts));
    case VariableDeclaration(typ, name, init) =>
      OptionalLayoutGood(init);
      GoodOutline("IDENTIFIER", Some(Typed(name, typ)), []);
      AllGoodConcat([Leaf("IDENTIFIER", Typed(name, typ))], OptionalLayout(init));
      GoodOutline("VARIABLE_DECLARATION", None, [Leaf("IDENTIFIER", Typed(name, typ))] + OptionalLayout(init));
    case FunctionCall(f, args) =>
      if args != [] {
        LayoutsGood(args);
        GoodOutline("ARGUMENTS", None, Layouts(args));
      }
      GoodOutline("FUNCTION_CALL", Some(f), if args == [] then [] else [Outline("ARGUMENTS", None, Layouts(args))]);
    case Literal(v) =>
      GoodOutline("LITERAL_VALUE", Some(v), []);
    case Assignment(x, e) =>
      OptionalLayoutGood(e);
      GoodOutline("IDENTIFIER", Some(x), []);
      GoodOutline("EXPRESSION", None, OptionalLayout(e));
      AllGoodPair(Leaf("IDENTIFIER", x), Outline("EXPRESSION", None, OptionalLayout(e)));
      GoodOutline("ASSIGNMENT_EXPRESSION", None, [Leaf("IDENTIFIER", x), Outline("EXPRESSION", None, OptionalLayout(e))]);
    case BinaryOperator(op, l, r) =>
      LayoutGood(l);
      LayoutGood(r);
      AllGoodPair(Layout(l), Layout(r));
      GoodOutline("OPERATOR", Some(op), [Layout(l), Layout(r)]);
  }

  lemma FunctionHeaderGood(name: string, params: seq<Parameter>, rt: string)
    requires AllGood(ParameterLayouts(params))
    ensures AllGood(FunctionHeader(name, params, rt))
  {
    GoodOutline("FUNCTION_NAME", Some(name), []);
    GoodOutline("RETURN_TYPE", Some(rt), []);
    GoodOutline("PARAMETERS", None, ParameterLayouts(params));
  }

  lemma {:induction false} LayoutsGood(ns: seq<AstNode>)
    ensures AllGood(Layouts(ns))
    decreases ns, 0
  {
    if ns != [] {
      LayoutGood(ns[0]);
      LayoutsGood(ns[1..]);
    }
  }

  lemma {:induction false} OptionalLayoutGood(n: Option<AstNode>)
    ensures AllGood(OptionalLayout(n))
    decreases n, 0
  {
    if n.Some? {
      LayoutGood(n.value);
    }
  }

  lemma {:induction false} ParameterLayoutsGood(ps: seq<Parameter>)
    ensures AllGood(ParameterLayouts(ps))
  {
    if ps != [] {
      assert GoodKind("PARAMETER");
      ParameterLayoutsGood(ps[1..]);
    }
  }

  lemma StartOnSpine()
    ensures Start == Spine(Root, -1)
  {
    assert SpineStack(Root, 0) == [Some([])];
  }

  /**
   * A printed program reads back as ROOT with one child per function, each
   * with the kinds, values and nesting of the lines its node class prints.
   */
  lemma PrintThenRead(functions: seq<AstNode>)
    ensures ReadLines(PrintProgram(functions, 0)) == Ok(Node("ROOT", "", ToNodes(Layouts(functions))))
  {
    var os := Layouts(functions);
    var end := StepAll(Start, EntriesAll(os, 0));
    assert ReadFrom(Start, PrintProgram(functions, 0)) == Ok(end) by {
      LayoutsGood(functions);
      assert PrintProgram(functions, 0) + [] == PrintProgram(functions, 0);
      ReadEmittedAll(Start, os, 0, 0, []);
    }
    assert end.root == Node("ROOT", "", ToNodes(os)) by {
      StartOnSpine();
      StepOutlines(os, 0, Root, -1);
      assert AppendAtDepth(Root, 0, ToNodes(os)).children == ToNodes(os);
    }
  }

  /** One printed node reads back as the only child of ROOT. */
  lemma PrintNodeThenRead(n: AstNode)
    ensures ReadLines(Print(n, 0)) == Ok(Node("ROOT", "", [ToNode(Layout(n))]))
  {
    PrintThenRead([n]);
    assert Layouts([n]) == [Layout(n)];
    EmitAllOne(Layout(n), 0);
    assert ToNodes([Layout(n)]) == [ToNode(Layout(n))];
  }
}
