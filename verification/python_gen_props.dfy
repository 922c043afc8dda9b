/**
 * What the code generator guarantees: indentation comes back to where it
 * started after every statement that holds no function definition, a
 * function definition always leaves the level at 0, a program of such
 * definitions generates without error, and the parameter and loop-variable
 * splitting undoes the `name (TYPE: T)` format the AST printer writes.
 */
module PythonGenProps {
  import opened Wrappers
  import opened Text
  import opened PythonGen
  import AstReader

  // ------------------------------------------------------------ well-formed trees

  /**
   * A statement tree the generator handles without error: no function
   * definition anywhere in it, and every return statement has its expression.
   */
  predicate WellFormed(n: Node)
    decreases n, 1
  {
    n.kind != "FUNCTION_DEFINITION"
    && (n.kind == "RETURN_STATEMENT" ==> n.children != [])
    && AllWellFormed(n.children)
  }

  predicate AllWellFormed(ns: seq<Node>)
    decreases ns, 0
  {
    forall i :: 0 <= i < |ns| ==> WellFormed(ns[i])
  }

  lemma AllWellFormedPrefix(ns: seq<Node>)
    requires ns != [] && AllWellFormed(ns)
    ensures AllWellFormed(ns[..|ns| - 1]) && WellFormed(ns[|ns| - 1])
  {
    assert forall i :: 0 <= i < |ns| - 1 ==> ns[..|ns| - 1][i] == ns[i];
  }

  /** Every well-formed statement generates without error and ends at the level it started from. */
  lemma {:induction false} StatementBalanced(n: Node, level: int)
    requires level >= 0 && WellFormed(n)
    ensures GenPython(n, level).Ok? && GenPython(n, level).value.level == level
    decreases n, 2
  {
    if n.kind == "FOR_LOOP" {
      if !(LoopVariable(n.children) == "" || BoundOf(n.children, "RANGE_START") == ""
        || BoundOf(n.children, "RANGE_END") == "") {
        BodiesBalanced(n.children, "LOOP_BODY", level + 1);
      }
    } else if n.kind != "ASSIGNMENT_EXPRESSION" && n.kind != "RETURN_STATEMENT" {
      StatementsBalanced(n.children, level);
    }
  }

  lemma {:induction false} StatementsBalanced(ns: seq<Node>, level: int)
    requires level >= 0 && AllWellFormed(ns)
    ensures GenPythonAll(ns, level).Ok? && GenPythonAll(ns, level).value.level == level
    decreases ns, 0
  {
    if ns != [] {
      AllWellFormedPrefix(ns);
      StatementsBalanced(ns[..|ns| - 1], level);
      StatementBalanced(ns[|ns| - 1], level);
    }
  }

  lemma {:induction false} BodiesBalanced(ns: seq<Node>, kind: string, level: int)
    requires level >= 0 && AllWellFormed(ns)
    ensures GenBodies(ns, kind, level).Ok? && GenBodies(ns, kind, level).value.level == level
    decreases ns, 0
  {
    if ns != [] {
      AllWellFormedPrefix(ns);
      BodiesBalanced(ns[..|ns| - 1], kind, level);
      if ns[|ns| - 1].kind == kind {
        StatementsBalanced(ns[|ns| - 1].children, level);
      }
    }
  }

  // ------------------------------------------------------------ function definitions

  /**
   * A function definition whose children are well-formed generates its `def`
   * line at the current indentation, then its bodies, and leaves the level
   * at 0.
   */
  lemma DefinitionGenerates(n: Node, level: int)
    requires n.kind == "FUNCTION_DEFINITION" && level >= 0 && AllWellFormed(n.children)
    ensures GenPython(n, level).Ok?
    ensures GenPython(n, level).value.level == 0
    ensures Header(n.children, Spaces(level * 4)) <= GenPython(n, level).value.text
  {
    BodiesBalanced(n.children, "FUNCTION_BODY", level + 1);
  }

  /** A top-level item: a well-formed statement or a function definition with well-formed children. */
  predicate TopLevel(n: Node)
  {
    WellFormed(n) || (n.kind == "FUNCTION_DEFINITION" && AllWellFormed(n.children))
  }

  /** A program of top-level items generates without error and ends at level 0. */
  lemma {:induction false} ProgramGenerates(ns: seq<Node>)
    requires forall i :: 0 <= i < |ns| ==> TopLevel(ns[i])
    ensures GenPythonAll(ns, 0).Ok? && GenPythonAll(ns, 0).value.level == 0
    decreases |ns|
  {
    if ns != [] {
      var p := ns[..|ns| - 1];
      assert forall i :: 0 <= i < |p| ==> p[i] == ns[i];
      ProgramGenerates(p);
      var last := ns[|ns| - 1];
      assert TopLevel(last);
      if WellFormed(last) {
        StatementBalanced(last, 0);
      } else {
        DefinitionGenerates(last, 0);
      }
    }
  }

  /**
   * generatePython from a fresh generator (level 0) on the root the reader
   * returns: a ROOT node has no case of its own, so its children are
   * generated in turn. The driver in `main` does not make this call: it
   * walks the root's FUNCTION_DEFINITION children itself and writes a blank
   * line after each, which GenDriver models and DriverEndsAtZero is about.
   */
  lemma RootGenerates(root: Node)
    requires root.kind == "ROOT"
    requires forall i :: 0 <= i < |root.children| ==> TopLevel(root.children[i])
    ensures GenPython(root, 0) == GenPythonAll(root.children, 0)
    ensures GenPython(root, 0).Ok? && GenPython(root, 0).value.level == 0
  {
    ProgramGenerates(root.children);
  }

  // ------------------------------------------------------------ trees without loops

  /**
   * A tree with no for loop and no return statement anywhere in it. Only a
   * for loop lowers the level below where it found it, and only a return
   * statement can miss its expression.
   */
  predicate NoLoop(n: Node)
    decreases n, 1
  {
    n.kind != "FOR_LOOP" && n.kind != "RETURN_STATEMENT" && AllNoLoop(n.children)
  }

  predicate AllNoLoop(ns: seq<Node>)
    decreases ns, 0
  {
    forall i :: 0 <= i < |ns| ==> NoLoop(ns[i])
  }

  lemma AllNoLoopPrefix(ns: seq<Node>)
    requires ns != [] && AllNoLoop(ns)
    ensures AllNoLoop(ns[..|ns| - 1]) && NoLoop(ns[|ns| - 1])
  {
    assert forall i :: 0 <= i < |ns| - 1 ==> ns[..|ns| - 1][i] == ns[i];
  }

  /**
   * Without loops the level never drops below 0: nested function
   * definitions included, generation from a level >= 0 succeeds and ends at
   * a level >= 0.
   */
  lemma {:induction false} GenOk(n: Node, level: int)
    requires level >= 0 && NoLoop(n)
    ensures GenPython(n, level).Ok? && GenPython(n, level).value.level >= 0
    decreases n, 2
  {
    if n.kind == "FUNCTION_DEFINITION" {
      BodiesOk(n.children, "FUNCTION_BODY", level + 1);
    } else if n.kind != "ASSIGNMENT_EXPRESSION" {
      AllOk(n.children, level);
    }
  }

  lemma {:induction false} AllOk(ns: seq<Node>, level: int)
    requires level >= 0 && AllNoLoop(ns)
    ensures GenPythonAll(ns, level).Ok? && GenPythonAll(ns, level).value.level >= 0
    decreases ns, 0
  {
    if ns != [] {
      AllNoLoopPrefix(ns);
      AllOk(ns[..|ns| - 1], level);
      GenOk(ns[|ns| - 1], GenPythonAll(ns[..|ns| - 1], level).value.level);
    }
  }

  lemma {:induction false} BodiesOk(ns: seq<Node>, kind: string, level: int)
    requires level >= 0 && AllNoLoop(ns)
    ensures GenBodies(ns, kind, level).Ok? && GenBodies(ns, kind, level).value.level >= 0
    decreases ns, 0
  {
    if ns != [] {
      AllNoLoopPrefix(ns);
      BodiesOk(ns[..|ns| - 1], kind, level);
      if ns[|ns| - 1].kind == kind {
        AllOk(ns[|ns| - 1].children, GenBodies(ns[..|ns| - 1], kind, level).value.level);
      }
    }
  }

  /**
   * A sequence of function definitions without loops, generated from level
   * 0, succeeds and ends at level 0: each definition sets the level to 0,
   * whatever definitions nested in it did to it.
   */
  lemma {:induction false} DefinitionsEndAtZero(ns: seq<Node>)
    requires forall i :: 0 <= i < |ns| ==> ns[i].kind == "FUNCTION_DEFINITION" && NoLoop(ns[i])
    ensures GenPythonAll(ns, 0).Ok? && GenPythonAll(ns, 0).value.level == 0
    decreases |ns|
  {
    if ns != [] {
      var p := ns[..|ns| - 1];
      assert forall i :: 0 <= i < |p| ==> p[i] == ns[i];
      DefinitionsEndAtZero(p);
      GenOk(ns[|ns| - 1], 0);
    }
  }

  /**
   * `main`'s loop over a root whose definitions hold no loop: it generates
   * without error from a fresh generator and leaves the level at 0.
   */
  lemma {:induction false} DriverEndsAtZero(ns: seq<Node>)
    requires forall i :: 0 <= i < |ns| && ns[i].kind == "FUNCTION_DEFINITION" ==> NoLoop(ns[i])
    ensures GenDriver(ns, 0).Ok? && GenDriver(ns, 0).value.level == 0
    decreases |ns|
  {
    if ns != [] {
      var p := ns[..|ns| - 1];
      assert forall i :: 0 <= i < |p| ==> p[i] == ns[i];
      DriverEndsAtZero(p);
      if ns[|ns| - 1].kind == "FUNCTION_DEFINITION" {
        GenOk(ns[|ns| - 1], 0);
      }
    }
  }

  // ------------------------------------------------------------ a definition inside a loop

  /** Items without loops whose last one is a definition: the walk ends at level 0. */
  lemma LastDefinitionEndsAtZero(ns: seq<Node>, level: int)
    requires level >= 0 && AllNoLoop(ns) && ns != [] && ns[|ns| - 1].kind == "FUNCTION_DEFINITION"
    ensures GenPythonAll(ns, level).Ok? && GenPythonAll(ns, level).value.level == 0
  {
    AllNoLoopPrefix(ns);
    AllOk(ns[..|ns| - 1], level);
    GenOk(ns[|ns| - 1], GenPythonAll(ns[..|ns| - 1], level).value.level);
  }

  /**
   * A for loop with its variable and both bounds, no further loop inside,
   * and a function definition as the last item of its last child, a loop
   * body: the definition sets the level to 0 and the loop lowers it to -1.
   */
  lemma DefinitionInLoopLowersLevel(n: Node, level: int)
    requires level >= 0 && n.kind == "FOR_LOOP" && AllNoLoop(n.children)
    requires LoopVariable(n.children) != "" && BoundOf(n.children, "RANGE_START") != ""
    requires BoundOf(n.children, "RANGE_END") != ""
    requires n.children != [] && n.children[|n.children| - 1].kind == "LOOP_BODY"
    requires var body := n.children[|n.children| - 1].children;
      body != [] && body[|body| - 1].kind == "FUNCTION_DEFINITION"
    ensures GenPython(n, level).Ok? && GenPython(n, level).value.level == -1
  {
    var cs := n.children;
    AllNoLoopPrefix(cs);
    BodiesOk(cs[..|cs| - 1], "LOOP_BODY", level + 1);
    var before := GenBodies(cs[..|cs| - 1], "LOOP_BODY", level + 1).value;
    LastDefinitionEndsAtZero(cs[|cs| - 1].children, before.level);
    assert GenBodies(cs, "LOOP_BODY", level + 1).Ok? && GenBodies(cs, "LOOP_BODY", level + 1).value.level == 0;
    ForLoopOutcome(n, level, IndentText(level).value);
  }

  /**
   * After items that leave the level negative, an assignment with a target
   * and a value asks getIndent for that level: `length_error`.
   */
  lemma AssignmentAfterNegativeLevel(ns: seq<Node>, a: Node, level: int)
    requires GenPythonAll(ns, level).Ok? && GenPythonAll(ns, level).value.level < 0
    requires a.kind == "ASSIGNMENT_EXPRESSION" && ValueOf(a.children, "IDENTIFIER") != ""
    requires LastOf(a.children, "EXPRESSION").Some? && GenExpression(LastOf(a.children, "EXPRESSION").value) != ""
    ensures GenPythonAll(ns + [a], level) == Err(IndentError)
  {
    assert (ns + [a])[..|ns|] == ns;
  }

  // ------------------------------------------------------------ parameters

  /** A name without blanks followed by the type marker: the marker is found right after the name. */
  lemma MarkerAfterName(name: string, rest: string)
    requires forall i :: 0 <= i < |name| ==> name[i] != ' '
    requires |TypeMarker| <= |rest| && rest[..|TypeMarker|] == TypeMarker
    ensures Find(name + rest, TypeMarker) == Some(|name|)
  {
    var s := name + rest;
    assert s[|name|..|name| + |TypeMarker|] == rest[..|TypeMarker|];
    assert OccursAt(s, TypeMarker, |name|);
    FindFirst(s, TypeMarker);
    var r := Find(s, TypeMarker);
    assert r.Some?;
    var p := r.value;
    assert p <= |name|;
    assert s[p] == ' ' by {
      assert s[p..p + |TypeMarker|] == TypeMarker;
      assert s[p..p + |TypeMarker|][0] == s[p];
    }
  }

  /**
   * A parameter printed as `name (TYPE: T)` generates as `name:  t`: the name
   * comes back, the type comes back lowercased, and the blank after the
   * marker stays in front of it.
   */
  lemma ParamOfTyped(name: string, typ: string)
    requires forall i :: 0 <= i < |name| ==> name[i] != ' '
    ensures ParamText(name + " (TYPE: " + typ + ")") == name + ":  " + ToLower(typ)
  {
    var rest := " (TYPE: " + typ + ")";
    var v := name + rest;
    assert name + " (TYPE: " + typ + ")" == v;
    MarkerAfterName(name, rest);
    assert v[..|name|] == name;
    var t := v[|name| + 7..];
    assert t == " " + typ + ")" by {
      assert rest == TypeMarker + (" " + typ + ")");
    }
    assert t != [] && t[|t| - 1] == ')';
    assert t[..|t| - 1] == " " + typ;
    assert ParamText(v) == name + ": " + ToLower(" " + typ);
    ToLowerAfterBlank(typ);
    ColonThenBlank(name, ToLower(typ));
  }

  lemma ColonThenBlank(name: string, x: string)
    ensures name + ": " + (" " + x) == name + ":  " + x
  {
    assert ": " + " " == ":  ";
  }

  lemma ToLowerAfterBlank(s: string)
    ensures ToLower(" " + s) == " " + ToLower(s)
  {
    assert (" " + s)[1..] == s;
  }

  /** A parameter value without the marker is used as it is. */
  lemma ParamWithoutMarker(v: string)
    requires Find(v, TypeMarker).None?
    ensures ParamText(v) == v
  {
  }

  /** A loop variable printed as `name (TYPE: T)` generates as `name`. */
  lemma LoopVariableOfTyped(ns: seq<Node>, name: string, typ: string)
    requires forall i :: 0 <= i < |name| ==> name[i] != ' '
    requires ValueOf(ns, "LOOP_VARIABLE") == name + " (TYPE: " + typ + ")"
    ensures LoopVariable(ns) == name
  {
    var rest := " (TYPE: " + typ + ")";
    assert name + " (TYPE: " + typ + ")" == name + rest;
    MarkerAfterName(name, rest);
    assert (name + rest)[..|name|] == name;
  }

  // ------------------------------------------------------------ join

  /** Joining two non-empty lists is joining each and putting one delimiter between them. */
  lemma {:induction false} JoinedAppend(a: seq<string>, b: seq<string>, delim: string)
    requires a != [] && b != []
    ensures Joined(a + b, delim) == Joined(a, delim) + delim + Joined(b, delim)
    decreases |b|
  {
    var ab := a + b;
    var last := b[|b| - 1];
    assert |ab| > 1 && ab[|ab| - 1] == last;
    if |b| == 1 {
      assert ab[..|ab| - 1] == a;
      assert Joined(b, delim) == last;
    } else {
      var b' := b[..|b| - 1];
      assert ab[..|ab| - 1] == a + b';
      JoinedAppend(a, b', delim);
      assert Joined(b, delim) == Joined(b', delim) + delim + last;
    }
    assert Joined(ab, delim) == Joined(ab[..|ab| - 1], delim) + delim + last;
  }

  /** The delimiter occurs once between each pair of neighbours: the length of a join. */
  lemma {:induction false} JoinedLength(vec: seq<string>, delim: string)
    requires vec != []
    ensures |Joined(vec, delim)| == TotalLength(vec) + (|vec| - 1) * |delim|
    decreases |vec|
  {
    if |vec| > 1 {
      JoinedLength(vec[..|vec| - 1], delim);
    }
  }

  function TotalLength(vec: seq<string>): nat
  {
    if vec == [] then 0 else TotalLength(vec[..|vec| - 1]) + |vec[|vec| - 1]|
  }
}
