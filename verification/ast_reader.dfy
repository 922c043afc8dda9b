/**
 * The code generator's reading of a printed syntax tree: one node per
 * non-empty line, nested by indentation (two spaces per level) with a stack
 * of the most recent node at each open level.
 *
 * The stack holds references to nodes of the tree under construction; here each entry
 * is the path of child indices from the root to that node, or None for a node
 * that hangs under no node reachable from the root (after the stack has been
 * emptied by a line indented less than the first one).
 */
module AstReader {
  import opened Wrappers
  import opened Text

  /** A node of the generic tree: its kind, its value and its children, in order. */
  datatype Node = Node(kind: string, value: string, children: seq<Node>)

  /** The root every reading starts from. */
  const Root: Node := Node("ROOT", "", [])

  /** A line's nesting level and the childless node it stands for. */
  datatype Entry = Entry(level: nat, node: Node)

  type Path = seq<nat>

  /**
   * One line. An empty line is skipped (Ok(None)). The level is the number of
   * leading spaces halved; the text starts at the first character that is
   * neither a space nor a tab. The kind is the text before its first colon
   * and the value the text from two characters after that colon; without a
   * colon the whole text is the kind and the value is empty. Err stands for
   * the out_of_range exception `substr` throws on a line of blanks only and on
   * a line whose only colon is its last character.
   */
  function ParseLine(line: string): (r: Result<Option<Entry>>)
    ensures r.Ok? && r.value.Some? ==>
      r.value.value.level == LeadingSpaces(line) / 2 && r.value.value.node.children == []
      && ':' !in r.value.value.node.kind
    ensures (r.Ok? && r.value.None?) <==> line == ""
  {
    if line == "" then Ok(None)
    else
      var level := LeadingSpaces(line) / 2;
      match FindFirstNotOf(line, {' ', '\t'})
      case None => Err("out_of_range")
      case Some(i) =>
        var text := line[i..];
        match FindChar(text, ':')
        case None => Ok(Some(Entry(level, Node(text, "", []))))
        case Some(c) =>
          if c + 2 > |text| then Err("out_of_range")
          else Ok(Some(Entry(level, Node(text[..c], text[c + 2..], []))))
  }

  predicate AllBlank(line: string)
  {
    forall k :: 0 <= k < |line| ==> line[k] == ' ' || line[k] == '\t'
  }

  /** The line's first colon is its last character. */
  predicate ColonLast(line: string)
  {
    FindChar(line, ':') == Some(|line| - 1)
  }

  /**
   * Reading a line fails exactly on a non-empty line of blanks only and on a
   * line whose first colon is its last character.
   */
  lemma ParseLineFails(line: string)
    ensures ParseLine(line).Err? <==> line != "" && (AllBlank(line) || ColonLast(line))
  {
    if line != "" {
      match FindFirstNotOf(line, {' ', '\t'})
      case None =>
        assert AllBlank(line);
      case Some(i) =>
        assert !AllBlank(line) by {
          assert line[i] != ' ' && line[i] != '\t';
        }
        var text := line[i..];
        ColonInTail(line, i);
        match FindChar(text, ':')
        case None =>
          assert !ColonLast(line);
        case Some(c) =>
          assert ParseLine(line).Err? <==> c + 2 > |text|;
          assert ColonLast(line) <==> c == |text| - 1;
    }
  }

  /** The first colon of a line lies after its leading blanks, at the same place in the text after them. */
  lemma ColonInTail(line: string, i: nat)
    requires i < |line| && line[i] !in {' ', '\t'}
    requires forall j :: 0 <= j < i ==> line[j] in {' ', '\t'}
    ensures FindChar(line, ':').Some? <==> FindChar(line[i..], ':').Some?
    ensures FindChar(line, ':').Some? ==> FindChar(line, ':').value == i + FindChar(line[i..], ':').value
  {
    var t := line[i..];
    match FindChar(t, ':')
    case None =>
      assert forall j :: 0 <= j < |line| ==> line[j] != ':' by {
        forall j | 0 <= j < |line| ensures line[j] != ':' {
          if j >= i {
            assert line[j] == t[j - i];
          }
        }
      }
    case Some(c) =>
      assert line[i + c] == ':';
      assert FindChar(line, ':').Some?;
      var k := FindChar(line, ':').value;
      assert k >= i;
      assert t[k - i] == ':';
  }

  /**
   * The pop loop: while the new level is at most the previous one and the
   * stack is not empty, drop the top and lower the previous level by one.
   */
  function PopWhile(stack: seq<Option<Path>>, prev: int, level: nat): (r: (seq<Option<Path>>, int))
    ensures |r.0| <= |stack| && r.0 == stack[..|r.0|]
    ensures r.1 == prev - (|stack| - |r.0|)
    ensures prev < level ==> r == (stack, prev)
    ensures r.0 != [] ==> r.1 == (if prev < level then prev else level - 1)
    ensures |r.0| < |stack| ==> r.1 >= level - 1
    decreases |stack|
  {
    if level <= prev && stack != [] then PopWhile(stack[..|stack| - 1], prev - 1, level) else (stack, prev)
  }

  predicate ValidPath(root: Node, path: Path)
    decreases path
  {
    path == [] || (path[0] < |root.children| && ValidPath(root.children[path[0]], path[1..]))
  }

  /** The number of children of the node at `path`. */
  function ChildCount(root: Node, path: Path): nat
    decreases path
  {
    if path == [] then |root.children|
    else if path[0] < |root.children| then ChildCount(root.children[path[0]], path[1..])
    else 0
  }

  /**
   * `push_back` on the children of the node at `path`. A path that leads
   * nowhere leaves the tree as it is; ReadFromValid shows that no reading
   * meets one.
   */
  function AppendAt(root: Node, path: Path, n: Node): (r: Node)
    ensures r.kind == root.kind && r.value == root.value
    ensures |r.children| == |root.children| + (if path == [] then 1 else 0)
    decreases path
  {
    if path == [] then root.(children := root.children + [n])
    else if path[0] < |root.children| then
      root.(children := root.children[path[0] := AppendAt(root.children[path[0]], path[1..], n)])
    else root
  }

  /** The state of the reading loop: the tree so far, the node stack and the previous level. */
  datatype Reader = Reader(root: Node, stack: seq<Option<Path>>, prevIndent: int)

  const Start: Reader := Reader(Root, [Some([])], -1)

  /** One entry: pop to its parent, append it there, and push it. */
  function Step(r: Reader, e: Entry): Reader
  {
    var (stack, _) := PopWhile(r.stack, r.prevIndent, e.level);
    if stack != [] && stack[|stack| - 1].Some? then
      var p := stack[|stack| - 1].value;
      Reader(AppendAt(r.root, p, e.node), stack + [Some(p + [ChildCount(r.root, p)])], e.level)
    else
      Reader(r.root, stack + [None], e.level)
  }

  /** The reading loop from state r over the remaining lines. */
  function ReadFrom(r: Reader, lines: seq<string>): Result<Reader>
    decreases |lines|
  {
    if lines == [] then Ok(r)
    else match ParseLine(lines[0])
      case Err(msg) => Err(msg)
      case Ok(None) => ReadFrom(r, lines[1..])
      case Ok(Some(e)) => ReadFrom(Step(r, e), lines[1..])
  }

  /** `parseASTFromFile` on the file's lines: the ROOT node with everything read under it. */
  function ReadLines(lines: seq<string>): Result<Node>
  {
    match ReadFrom(Start, lines)
    case Err(msg) => Err(msg)
    case Ok(r) => Ok(r.root)
  }

  /** Every node the stack points to exists in the tree. */
  predicate ReaderValid(r: Reader)
  {
    forall i :: 0 <= i < |r.stack| && r.stack[i].Some? ==> ValidPath(r.root, r.stack[i].value)
  }

  /** Appending somewhere in the tree keeps every existing node where it was. */
  lemma {:induction false} AppendKeepsPath(root: Node, p: Path, n: Node, q: Path)
    requires ValidPath(root, p) && ValidPath(root, q)
    ensures ValidPath(AppendAt(root, p, n), q)
    decreases q
  {
    if q != [] {
      var root' := AppendAt(root, p, n);
      if p != [] && p[0] == q[0] {
        AppendKeepsPath(root.children[q[0]], p[1..], n, q[1..]);
      } else {
        assert root'.children[q[0]] == root.children[q[0]];
      }
    }
  }

  /** The appended node is found at the end of its parent's children. */
  lemma {:induction false} AppendedPath(root: Node, p: Path, n: Node)
    requires ValidPath(root, p)
    ensures ValidPath(AppendAt(root, p, n), p + [ChildCount(root, p)])
    decreases p
  {
    var q := p + [ChildCount(root, p)];
    if p == [] {
      assert q == [|root.children|];
      assert q[1..] == [];
    } else {
      assert q[0] == p[0] && q[1..] == p[1..] + [ChildCount(root.children[p[0]], p[1..])];
      AppendedPath(root.children[p[0]], p[1..], n);
    }
  }

  /** One line keeps the stack pointing into the tree. */
  lemma StepValid(r: Reader, e: Entry)
    requires ReaderValid(r)
    ensures ReaderValid(Step(r, e))
  {
    var (stack, _) := PopWhile(r.stack, r.prevIndent, e.level);
    assert forall i :: 0 <= i < |stack| ==> stack[i] == r.stack[i];
    if stack != [] && stack[|stack| - 1].Some? {
      var p := stack[|stack| - 1].value;
      var r' := Step(r, e);
      forall i | 0 <= i < |r'.stack| && r'.stack[i].Some?
        ensures ValidPath(r'.root, r'.stack[i].value)
      {
        if i < |stack| {
          AppendKeepsPath(r.root, p, e.node, stack[i].value);
        } else {
          AppendedPath(r.root, p, e.node);
        }
      }
    }
  }

  /** The whole reading loop keeps the stack pointing into the tree, so no append is lost. */
  lemma {:induction false} ReadFromValid(r: Reader, lines: seq<string>)
    requires ReaderValid(r)
    ensures ReadFrom(r, lines).Ok? ==> ReaderValid(ReadFrom(r, lines).value)
    decreases |lines|
  {
    if lines != [] {
      match ParseLine(lines[0])
      case Err(_) =>
      case Ok(None) =>
        ReadFromValid(r, lines[1..]);
      case Ok(Some(e)) =>
        StepValid(r, e);
        ReadFromValid(Step(r, e), lines[1..]);
    }
  }

  /** The body of the reading loop for one non-empty line: its level and its node. */
  method ReadLine(line: string) returns (r: Result<Entry>)
    requires line != ""
    ensures r.Ok? ==> ParseLine(line) == Ok(Some(r.value))
    ensures r.Err? ==> ParseLine(line).Err? && r.error == ParseLine(line).error
  {
    var indent := 0;
    while indent < |line| && line[indent] == ' '
      invariant indent <= |line|
      invariant forall k :: 0 <= k < indent ==> line[k] == ' '
    {
      indent := indent + 1;
    }
    assert indent == LeadingSpaces(line);
    indent := indent / 2;
    var first := FindFirstNotOf(line, {' ', '\t'});
    if first.None? {
      return Err("out_of_range");
    }
    var text := line[first.value..];
    var colon := FindChar(text, ':');
    if colon.Some? {
      if colon.value + 2 > |text| {
        return Err("out_of_range");
      }
      r := Ok(Entry(indent, Node(text[..colon.value], text[colon.value + 2..], [])));
    } else {
      r := Ok(Entry(indent, Node(text, "", [])));
    }
  }

  /** `parseASTFromFile` as the source runs it, over lines already read from the file. */
  method ParseASTFromLines(lines: seq<string>) returns (result: Result<Node>)
    ensures result == ReadLines(lines)
  {
    var root := Root;
    var stack: seq<Option<Path>> := [Some([])];
    var prevIndent: int := -1;
    var i := 0;
    while i < |lines|
      invariant i <= |lines|
      invariant ReadFrom(Reader(root, stack, prevIndent), lines[i..]) == ReadFrom(Start, lines)
    {
      var line := lines[i];
      assert lines[i..][1..] == lines[i + 1..];
      i := i + 1;
      if line == "" {
        continue;
      }
      var entry := ReadLine(line);
      if entry.Err? {
        return Err(entry.error);
      }
      var indent, node := entry.value.level, entry.value.node;
      ghost var popped := PopWhile(stack, prevIndent, indent);
      while indent <= prevIndent && stack != []
        invariant PopWhile(stack, prevIndent, indent) == popped
        decreases |stack|
      {
        stack := stack[..|stack| - 1];
        prevIndent := prevIndent - 1;
      }
      if stack != [] && stack[|stack| - 1].Some? {
        var p := stack[|stack| - 1].value;
        var count := ChildCount(root, p);
        root := AppendAt(root, p, node);
        stack := stack + [Some(p + [count])];
      } else {
        stack := stack + [None];
      }
      prevIndent := indent;
    }
    assert lines[i..] == [];
    result := match ReadFrom(Start, lines)
      case Err(msg) => Err(msg)
      case Ok(r) => Ok(r.root);
  }
}
