/** Subject-name inference: render the first argument of the validation call
    found on the caller's source line. Reading the frame, parsing the line and
    matching the fallback regular expressions happen outside the model; their
    outcomes arrive as a `FrameInfo`. */
module NameExtractor {
  import opened Wrappers
  import opened PyText

  /** A Python expression tree as `ast.parse` returns it. `Node` is every other
      node kind (statements, constants, operators, keyword arguments), kept
      only for its children. */
  datatype Expr =
    | Name(id: string)
    | Attribute(value: Expr, attr: string)
    | Subscript(value: Expr, index: Expr)
    | Call(func: Expr, args: seq<Expr>, keywords: seq<Expr>)
    | Node(children: seq<Expr>)

  /** The public entry points whose first argument names the subject. */
  const ValidationFunctions: seq<string> := [
    "assert_type", "assert_range", "assert_length",
    "assert_not_none", "is_type", "assert_numeric", "assert_string_like",
    "assert_sequence", "assert_mapping", "assert_path", "is_not_none"]

  /** The readable form of an argument expression: identifiers and dotted
      paths verbatim, subscripts and calls abbreviated, anything else
      "expression". */
  function Render(e: Expr): string {
    match e
    case Name(id) => id
    case Attribute(v, attr) => Render(v) + "." + attr
    case Subscript(v, _) => Render(v) + "[...]"
    case Call(Name(f), _, _) => f + "(...)"
    case Call(Attribute(v, attr), _, _) => Render(Attribute(v, attr)) + "(...)"
    case _ => "expression"
  }

  /** The dotted access `root.a1.a2...` as a tree of attribute nodes. */
  function Dotted(root: string, attrs: seq<string>): Expr
    decreases |attrs|
  {
    if attrs == [] then Name(root)
    else Attribute(Dotted(root, attrs[..|attrs| - 1]), attrs[|attrs| - 1])
  }

  /** A dotted path renders as its identifiers joined by dots. */
  lemma {:induction false} RenderDottedPath(root: string, attrs: seq<string>)
    ensures Render(Dotted(root, attrs)) == Join([root] + attrs, ".")
    decreases |attrs|
  {
    if attrs != [] {
      var init := attrs[..|attrs| - 1];
      RenderDottedPath(root, init);
      assert [root] + attrs == ([root] + init) + [attrs[|attrs| - 1]];
      JoinSnoc([root] + init, attrs[|attrs| - 1], ".");
    }
  }

  /** A subscript of a dotted path renders as the path followed by `[...]`,
      whatever the index; a call of a bare name or of a dotted path renders as
      the callee followed by `(...)`, whatever the arguments. */
  lemma RenderAbbreviations(root: string, attrs: seq<string>, index: Expr,
                            args: seq<Expr>, keywords: seq<Expr>)
    ensures Render(Subscript(Dotted(root, attrs), index)) == Join([root] + attrs, ".") + "[...]"
    ensures Render(Call(Dotted(root, attrs), args, keywords)) == Join([root] + attrs, ".") + "(...)"
  {
    RenderDottedPath(root, attrs);
  }

  /** Every node that is neither a name, an attribute, a subscript nor a call
      of a name or attribute renders as "expression". */
  lemma RenderFallback(e: Expr)
    requires e.Node? || (e.Call? && !e.func.Name? && !e.func.Attribute?)
    ensures Render(e) == "expression"
  {
  }

  // ---- ast.walk: breadth-first order over the tree -------------------------

  function Children(e: Expr): seq<Expr> {
    match e
    case Name(_) => []
    case Attribute(v, _) => [v]
    case Subscript(v, i) => [v, i]
    case Call(f, args, kws) => [f] + args + kws
    case Node(cs) => cs
  }

  function Size(e: Expr): nat
    decreases e, 1
  {
    match e
    case Name(_) => 1
    case Attribute(v, _) => 1 + Size(v)
    case Subscript(v, i) => 1 + Size(v) + Size(i)
    case Call(f, args, kws) => 1 + Size(f) + SizeAll(e, args) + SizeAll(e, kws)
    case Node(cs) => 1 + SizeAll(e, cs)
  }

  function SizeAll(ghost parent: Expr, es: seq<Expr>): nat
    requires forall x :: x in es ==> x < parent
    decreases parent, 0, |es|
  {
    if es == [] then 0
    else
      assert es[0] in es;
      assert forall x :: x in es[1..] ==> x in es;
      Size(es[0]) + SizeAll(parent, es[1..])
  }

  /** The total size of a forest. */
  function Weight(es: seq<Expr>): nat {
    if es == [] then 0 else Size(es[0]) + Weight(es[1..])
  }

  lemma {:induction false} WeightAppend(a: seq<Expr>, b: seq<Expr>)
    ensures Weight(a + b) == Weight(a) + Weight(b)
    decreases |a|
  {
    if a != [] {
      assert (a + b)[0] == a[0];
      assert (a + b)[1..] == a[1..] + b;
      WeightAppend(a[1..], b);
    } else {
      assert a + b == b;
    }
  }

  lemma {:induction false} SizeAllIsWeight(parent: Expr, es: seq<Expr>)
    requires forall x :: x in es ==> x < parent
    ensures SizeAll(parent, es) == Weight(es)
    decreases |es|
  {
    if es != [] {
      assert forall x :: x in es[1..] ==> x in es;
      SizeAllIsWeight(parent, es[1..]);
    }
  }

  lemma WeightSingle(x: Expr)
    ensures Weight([x]) == Size(x)
  {
    assert [x][1..] == [];
  }

  lemma ChildrenWeight(e: Expr)
    ensures Weight(Children(e)) == Size(e) - 1
  {
    match e
    case Name(_) =>
    case Attribute(v, _) =>
      WeightSingle(v);
    case Subscript(v, i) =>
      WeightSingle(v);
      WeightSingle(i);
      WeightAppend([v], [i]);
      assert Children(e) == [v] + [i];
    case Call(f, args, kws) =>
      SizeAllIsWeight(e, args);
      SizeAllIsWeight(e, kws);
      WeightSingle(f);
      WeightAppend([f], args);
      WeightAppend([f] + args, kws);
    case Node(cs) =>
      SizeAllIsWeight(e, cs);
  }

  /** The next breadth-first level: the children of every node, in order. */
  function NextLevel(level: seq<Expr>): seq<Expr> {
    if level == [] then [] else Children(level[0]) + NextLevel(level[1..])
  }

  lemma {:induction false} NextLevelWeight(level: seq<Expr>)
    ensures Weight(NextLevel(level)) + |level| == Weight(level)
    decreases |level|
  {
    if level != [] {
      ChildrenWeight(level[0]);
      NextLevelWeight(level[1..]);
      WeightAppend(Children(level[0]), NextLevel(level[1..]));
    }
  }

  /** Every node of a forest, counted once per occurrence: an independent,
      depth-first listing to compare the walk against. */
  function Nodes(forest: seq<Expr>): multiset<Expr>
    decreases Weight(forest)
  {
    if forest == [] then multiset{}
    else
      ChildrenWeight(forest[0]);
      WeightAppend(Children(forest[0]), forest[1..]);
      multiset{forest[0]} + Nodes(Children(forest[0]) + forest[1..])
  }

  lemma {:induction false} NodesAppend(a: seq<Expr>, b: seq<Expr>)
    ensures Nodes(a + b) == Nodes(a) + Nodes(b)
    decreases Weight(a)
  {
    if a == [] {
      assert a + b == b;
    } else {
      ChildrenWeight(a[0]);
      WeightAppend(Children(a[0]), a[1..]);
      assert (a + b)[0] == a[0];
      assert Children(a[0]) + (a + b)[1..] == (Children(a[0]) + a[1..]) + b;
      NodesAppend(Children(a[0]) + a[1..], b);
    }
  }

  /** The nodes of a forest are its roots and the nodes of the next level. */
  lemma {:induction false} NodesByLevel(level: seq<Expr>)
    ensures Nodes(level) == multiset(level) + Nodes(NextLevel(level))
    decreases |level|
  {
    if level != [] {
      var x, rest := level[0], level[1..];
      calc {
        Nodes(level);
        multiset{x} + Nodes(Children(x) + rest);
        { NodesAppend(Children(x), rest); }
        multiset{x} + Nodes(Children(x)) + Nodes(rest);
        { NodesByLevel(rest); }
        multiset{x} + multiset(rest) + (Nodes(Children(x)) + Nodes(NextLevel(rest)));
        { NodesAppend(Children(x), NextLevel(rest)); }
        multiset{x} + multiset(rest) + Nodes(Children(x) + NextLevel(rest));
        { assert level == [x] + rest; }
        multiset(level) + Nodes(NextLevel(level));
      }
    }
  }

  /** `ast.walk`: the nodes level by level, each level left to right,
      starting with the forest's roots; as many nodes as the forest holds. */
  function Walk(level: seq<Expr>): (r: seq<Expr>)
    ensures |r| == Weight(level)
    ensures |r| >= |level| && r[..|level|] == level
    decreases Weight(level)
  {
    if level == [] then []
    else
      NextLevelWeight(level);
      level + Walk(NextLevel(level))
  }

  /** The walk visits exactly the nodes of the forest, each as often as it
      occurs there. */
  lemma {:induction false} WalkVisitsEveryNode(level: seq<Expr>)
    ensures multiset(Walk(level)) == Nodes(level)
    decreases Weight(level)
  {
    if level != [] {
      NextLevelWeight(level);
      WalkVisitsEveryNode(NextLevel(level));
      NodesByLevel(level);
    }
  }

  /** A call of a validation entry point by bare name, with a positional
      argument. */
  predicate IsValidationCall(e: Expr) {
    e.Call? && e.func.Name? && e.func.id in ValidationFunctions && |e.args| > 0
  }

  /** The first validation call in walk order. */
  function FirstValidationCall(nodes: seq<Expr>): (r: Option<Expr>)
    ensures r.None? <==> forall i :: 0 <= i < |nodes| ==> !IsValidationCall(nodes[i])
    ensures r.Some? ==> exists i :: 0 <= i < |nodes| && nodes[i] == r.value
                                    && IsValidationCall(nodes[i])
                                    && forall j :: 0 <= j < i ==> !IsValidationCall(nodes[j])
  {
    if nodes == [] then None
    else if IsValidationCall(nodes[0]) then Some(nodes[0])
    else
      var r := FirstValidationCall(nodes[1..]);
      assert forall i :: 1 <= i < |nodes| ==> nodes[i] == nodes[1..][i - 1];
      r
  }

  // ---- the frame lookup ------------------------------------------------------

  /** What parsing the stripped source line gave: a tree for the line itself,
      a tree for `dummy = <line>` after a SyntaxError, or a second
      SyntaxError. */
  datatype ParseOutcome = Parsed(tree: Expr) | ParsedAsAssignment(tree: Expr) | Unparseable

  /** What the frame inspection gave: nothing (`getframeinfo` raised), or the
      source lines of the call together with the parse of the first line and
      the group captured by the first fallback pattern that matches it. */
  datatype FrameInfo =
    | NoFrameInfo
    | FrameInfo(codeContext: seq<string>, parse: ParseOutcome, regexCapture: Option<string>)

  /** The regex fallback: the captured text without its whitespace, or
      "value" when no pattern matched. */
  function RegexFallback(capture: Option<string>): (r: string)
    ensures capture.None? ==> r == "value"
    ensures capture.Some? ==> forall i :: 0 <= i < |r| ==> !IsSpace(r[i])
    ensures capture.Some? ==> IsSubsequence(r, capture.value)
                              && |r| == |capture.value| - SpaceCount(capture.value)
  {
    match capture
    case None => "value"
    case Some(text) => RemoveWhitespace(text)
  }

  /** `extract_from_frame`: never fails, and degrades to "value". */
  function ExtractFromFrame(frame: FrameInfo): (r: string)
    ensures frame.NoFrameInfo? ==> r == "value"
    ensures frame.FrameInfo? && (frame.codeContext == [] || frame.parse.Unparseable?) ==> r == "value"
    ensures frame.FrameInfo? && frame.codeContext != [] && !frame.parse.Unparseable? ==>
              match FirstValidationCall(Walk([frame.parse.tree]))
              case Some(call) => r == Render(call.args[0])
              case None => r == RegexFallback(frame.regexCapture)
  {
    match frame
    case NoFrameInfo => "value"
    case FrameInfo(lines, parse, capture) =>
      if lines == [] then "value"
      else if parse.Unparseable? then "value"
      else
        match FirstValidationCall(Walk([parse.tree]))
        case Some(call) => Render(call.args[0])
        case None => RegexFallback(capture)
  }

  /** A walk that starts at a lone node continues with the walk from its
      children. */
  lemma WalkThroughNode(cs: seq<Expr>)
    ensures Walk([Node(cs)]) == [Node(cs)] + Walk(cs)
  {
    assert NextLevel([Node(cs)]) == cs + [];
    assert cs + [] == cs;
  }

  lemma FirstSkipsOther(x: Expr, rest: seq<Expr>)
    requires !IsValidationCall(x)
    ensures FirstValidationCall([x] + rest) == FirstValidationCall(rest)
  {
    assert ([x] + rest)[1..] == rest;
  }

  lemma FirstAtHead(c: Expr, rest: seq<Expr>)
    requires IsValidationCall(c)
    ensures FirstValidationCall([c] + rest) == Some(c)
  {
    assert ([c] + rest)[0] == c;
  }

  /** The search stops at the earliest validation call. */
  lemma {:induction false} FirstIsEarliest(nodes: seq<Expr>, i: nat)
    requires i < |nodes| && IsValidationCall(nodes[i])
    requires forall j :: 0 <= j < i ==> !IsValidationCall(nodes[j])
    ensures FirstValidationCall(nodes) == Some(nodes[i])
    decreases i
  {
    assert nodes == [nodes[0]] + nodes[1..];
    if i == 0 {
      FirstAtHead(nodes[0], nodes[1..]);
    } else {
      assert forall j :: 0 <= j < i - 1 ==> nodes[1..][j] == nodes[j + 1];
      FirstIsEarliest(nodes[1..], i - 1);
      FirstSkipsOther(nodes[0], nodes[1..]);
    }
  }

  lemma ExtractFindsCall(lines: seq<string>, parse: ParseOutcome, capture: Option<string>, call: Expr)
    requires lines != [] && !parse.Unparseable?
    requires FirstValidationCall(Walk([parse.tree])) == Some(call)
    ensures ExtractFromFrame(FrameInfo(lines, parse, capture)) == Render(call.args[0])
  {
  }

  /** When the line is itself a validation call, its own first argument names
      the subject, before any call nested inside it: `ast.parse` wraps the
      line as a module holding one expression statement, and neither wrapper
      is a call. */
  lemma OuterCallWins(lines: seq<string>, call: Expr, capture: Option<string>)
    requires lines != [] && IsValidationCall(call)
    ensures ExtractFromFrame(FrameInfo(lines, Parsed(Node([Node([call])])), capture)) == Render(call.args[0])
  {
    var stmt := Node([call]);
    assert FirstValidationCall(Walk([Node([stmt])])) == Some(call) by {
      WalkThroughNode([stmt]);
      WalkThroughNode([call]);
      var rest := Walk([call]);
      assert rest == [call] + rest[1..];
      FirstAtHead(call, rest[1..]);
      FirstSkipsOther(stmt, rest);
      FirstSkipsOther(Node([stmt]), [stmt] + rest);
    }
    ExtractFindsCall(lines, Parsed(Node([stmt])), capture, call);
  }

  /** The same after a SyntaxError, when the line is parsed as the value of
      `dummy = <line>`: the assignment target is visited first and is a plain
      name, so the call still wins. */
  lemma OuterCallWinsAfterSyntaxError(lines: seq<string>, call: Expr, capture: Option<string>)
    requires lines != [] && IsValidationCall(call)
    ensures ExtractFromFrame(FrameInfo(lines, ParsedAsAssignment(Node([Node([Name("dummy"), call])])), capture))
            == Render(call.args[0])
  {
    var target := Name("dummy");
    var assign := Node([target, call]);
    assert FirstValidationCall(Walk([Node([assign])])) == Some(call) by {
      WalkThroughNode([assign]);
      WalkThroughNode([target, call]);
      var rest := Walk([target, call]);
      assert rest[..|[target, call]|] == [target, call];
      assert rest[0] == target && rest[1] == call;
      FirstIsEarliest(rest, 1);
      FirstSkipsOther(assign, rest);
      FirstSkipsOther(Node([assign]), [assign] + rest);
    }
    ExtractFindsCall(lines, ParsedAsAssignment(Node([assign])), capture, call);
  }
}
