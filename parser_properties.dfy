/** What parseInput guarantees about the nodes it builds: they form a tree
    rooted at the document node, only document and FOR nodes are ever open,
    text and echo nodes stay leaves, children are only ever appended, and the
    FOR and echo nodes hold what their tags were checked for. */
module ParserProperties {
  import opened JavaLang
  import opened Elements
  import opened Nodes
  import opened LexerSpec
  import opened ParserSpec

  /** A FOR node's arguments passed the parser's type checks. */
  predicate CheckedKind(k: NodeKind)
  {
    match k
    case ForLoopKind(_, start, end, step) =>
      IsForArgument(start) && IsForArgument(end) && (step.Some? ==> IsForArgument(step.value))
    case EchoKind(elements) =>
      forall k :: 0 <= k < |elements| ==> !IsOperator(elements[k], "$}") && !IsOperator(elements[k], "EOF")
    case _ => true
  }

  /** The nodes form a tree, only containers have child lists, and every node
      passed its tag's checks. */
  predicate TreeShape(records: seq<NodeRecord>)
  {
    WellFormed(records) &&
    forall i :: 0 <= i < |records| ==>
      (!IsContainer(records[i].kind) ==> records[i].children.None?) && CheckedKind(records[i].kind)
  }

  /** parseInput's state between passes, for a parse of the nodes under root:
      root is at the bottom of the stack, every open node is a container, and
      the stack fits its backing array. */
  predicate Shape(ps: ParseState, root: nat)
  {
    TreeShape(ps.records) &&
    0 < |ps.stack| <= ps.capacity && ps.stack[0] == root &&
    forall k :: 0 <= k < |ps.stack| ==> ps.stack[k] < |ps.records| && IsContainer(ps.records[ps.stack[k]].kind)
  }

  /** Nodes are only added, never changed in kind, and a child list only grows
      at its end; the nodes added are never documents. */
  predicate Grows(before: seq<NodeRecord>, after: seq<NodeRecord>)
  {
    |before| <= |after| &&
    (forall i :: 0 <= i < |before| ==>
       after[i].kind == before[i].kind &&
       |ChildList(before[i])| <= |ChildList(after[i])| &&
       ChildList(after[i])[..|ChildList(before[i])|] == ChildList(before[i])) &&
    forall i :: |before| <= i < |after| ==> !after[i].kind.DocumentKind?
  }

  lemma GrowsTransitive(a: seq<NodeRecord>, b: seq<NodeRecord>, c: seq<NodeRecord>)
    requires Grows(a, b) && Grows(b, c)
    ensures Grows(a, c)
  {
    forall i | 0 <= i < |a|
      ensures ChildList(c[i])[..|ChildList(a[i])|] == ChildList(a[i])
    {
      var ca, cb, cc := ChildList(a[i]), ChildList(b[i]), ChildList(c[i]);
      assert cc[..|cb|][..|ca|] == cc[..|ca|];
    }
  }

  /** A record added at the end changes no existing subtree. */
  lemma {:induction false} AppendKeepsSubtree(records: seq<NodeRecord>, x: NodeRecord, j: nat)
    requires WellFormed(records) && WellFormed(records + [x]) && j < |records|
    ensures ToTree(records + [x], j) == ToTree(records, j)
    decreases |records| - j
  {
    var cs := ChildList(records[j]);
    assert (records + [x])[j] == records[j];
    forall k | 0 <= k < |cs|
      ensures ToTree(records + [x], cs[k]) == ToTree(records, cs[k])
    {
      AppendKeepsSubtree(records, x, cs[k]);
    }
  }

  /** A record with no children may be added at the end of a tree. */
  lemma AppendLeafWellFormed(records: seq<NodeRecord>, node: NodeRecord)
    requires WellFormed(records) && node.children.None?
    ensures WellFormed(records + [node])
  {
    var records1 := records + [node];
    forall i | 0 <= i < |records1|
      ensures forall k :: 0 <= k < |ChildList(records1[i])| ==> i < ChildList(records1[i])[k] < |records1|
    {
      if i < |records| {
        assert records1[i] == records[i];
      }
    }
  }

  /** Adding a child to a container keeps the leaves childless and the checks. */
  lemma AddChildKeepsShape(records: seq<NodeRecord>, parent: nat, child: nat)
    requires TreeShape(records) && parent < child < |records| && IsContainer(records[parent].kind)
    ensures TreeShape(AddChild(records, parent, child))
  {
    var r := AddChild(records, parent, child);
    AddChildKeepsTree(records, parent, child);
    forall i | 0 <= i < |r|
      ensures (!IsContainer(r[i].kind) ==> r[i].children.None?) && CheckedKind(r[i].kind)
    {
      if i != parent {
        assert r[i] == records[i];
      }
    }
  }

  /** Attaching grows the nodes. */
  lemma AttachGrows(records: seq<NodeRecord>, stack: seq<nat>, kind: NodeKind)
    requires forall k :: 0 <= k < |stack| ==> stack[k] < |records|
    requires stack != [] && !kind.DocumentKind?
    ensures Grows(records, Attach(records, stack, kind).value)
  {
    var r := Attach(records, stack, kind).value;
    var top := stack[|stack| - 1];
    forall i | 0 <= i < |records|
      ensures ChildList(r[i])[..|ChildList(records[i])|] == ChildList(records[i])
    {
      if i != top {
        assert r[i] == records[i];
      }
    }
  }

  /** Attaching a node to the top of a stack of containers keeps the tree
      shape; the top's subtree gains the new node as its last child, and no
      other node changes. */
  lemma AttachKeepsShape(records: seq<NodeRecord>, stack: seq<nat>, kind: NodeKind)
    requires TreeShape(records) && CheckedKind(kind) && !kind.DocumentKind? && stack != []
    requires forall k :: 0 <= k < |stack| ==> stack[k] < |records| && IsContainer(records[stack[k]].kind)
    ensures var r := Attach(records, stack, kind);
      r.Ok? && TreeShape(r.value) && Grows(records, r.value) &&
      var top := stack[|stack| - 1];
      ToTree(r.value, top).children == ToTree(records, top).children + [ToTree(r.value, |records|)]
  {
    AttachKeepsTreeShape(records, stack, kind);
    AttachAddsSubtree(records, stack, kind);
  }

  lemma AttachKeepsTreeShape(records: seq<NodeRecord>, stack: seq<nat>, kind: NodeKind)
    requires TreeShape(records) && CheckedKind(kind) && !kind.DocumentKind? && stack != []
    requires forall k :: 0 <= k < |stack| ==> stack[k] < |records| && IsContainer(records[stack[k]].kind)
    ensures var r := Attach(records, stack, kind);
      r.Ok? && TreeShape(r.value) && Grows(records, r.value)
  {
    var top := stack[|stack| - 1];
    var node := NodeRecord(kind, None);
    var records1 := records + [node];
    AppendLeafWellFormed(records, node);
    assert TreeShape(records1) by {
      assert forall i :: 0 <= i < |records| ==> records1[i] == records[i];
    }
    assert records1[top] == records[top];
    AddChildKeepsShape(records1, top, |records|);
    AttachGrows(records, stack, kind);
  }

  lemma AttachAddsSubtree(records: seq<NodeRecord>, stack: seq<nat>, kind: NodeKind)
    requires WellFormed(records) && stack != []
    requires forall k :: 0 <= k < |stack| ==> stack[k] < |records| && IsContainer(records[stack[k]].kind)
    ensures var r := Attach(records, stack, kind);
      r.Ok? && WellFormed(r.value) &&
      var top := stack[|stack| - 1];
      IsContainer(records[top].kind) && r.value[top].kind == records[top].kind &&
      ToTree(r.value, top).children == ToTree(records, top).children + [ToTree(r.value, |records|)]
  {
    var top := stack[|stack| - 1];
    var node := NodeRecord(kind, None);
    var records1 := records + [node];
    AppendLeafWellFormed(records, node);
    assert records1[top] == records[top];
    AddChildKeepsTree(records1, top, |records|);
    var r := AddChild(records1, top, |records|);
    AppendKeepsSubtree(records, node, top);
    SubtreesUnchanged(records1, r, top, |records|);
  }

  /** One pass of the loop keeps the shape and only grows the nodes. */
  lemma IterationKeepsShape(data: string, ps: ParseState, root: nat)
    requires InRange(data, ps) && ps.lex.token.Some? && Shape(ps, root)
    ensures Iteration(data, ps).Ok? ==>
      Shape(Iteration(data, ps).value, root) && Grows(ps.records, Iteration(data, ps).value.records)
  {
    var r := Iteration(data, ps);
    if r.Ok? {
      if IsOperator(Current(ps.lex), "{$") {
        var l1 := Step(data, ps.lex).value;
        var name := Current(l1);
        var ps1 := ps.(lex := l1);
        if IsOperator(name, "FOR") {
          ForTagKeepsShape(data, ps1, root);
        } else if IsOperator(name, "END") {
          EndTagKeepsShape(data, ps1, root);
        } else {
          EchoTagKeepsShape(data, ps1, root);
        }
      } else {
        var l1 := Step(data, ps.lex).value;
        var run := TextRun(data, l1, "" + AsText(Current(ps.lex))).value;
        AttachKeepsShape(ps.records, ps.stack, TextKind(run.0));
      }
    }
  }

  lemma OpenForKeepsShape(data: string, ps: ParseState, kind: NodeKind, root: nat)
    requires InRange(data, ps) && kind.ForLoopKind? && CheckedKind(kind) && Shape(ps, root)
    ensures OpenFor(data, ps, kind).Ok? ==>
      Shape(OpenFor(data, ps, kind).value, root) && Grows(ps.records, OpenFor(data, ps, kind).value.records)
  {
    AttachKeepsShape(ps.records, ps.stack, kind);
    var records := Attach(ps.records, ps.stack, kind).value;
    var (stack, capacity) := PushStack(ps.stack, ps.capacity, |ps.records|);
    assert stack == ps.stack + [|ps.records|];
    assert records[|ps.records|].kind == kind;
  }

  lemma ForTagKeepsShape(data: string, ps: ParseState, root: nat)
    requires InRange(data, ps) && Shape(ps, root)
    ensures ForTag(data, ps).Ok? ==>
      Shape(ForTag(data, ps).value, root) && Grows(ps.records, ForTag(data, ps).value.records)
  {
    if ForTag(data, ps).Ok? {
      var l1 := Step(data, ps.lex).value;
      var l2 := Step(data, l1).value;
      var l3 := Step(data, l2).value;
      var l4 := Step(data, l3).value;
      if IsOperator(Current(l4), "$}") {
        OpenForKeepsShape(data, ps.(lex := l4), ForLoopKind(Current(l1).name, Current(l2), Current(l3), None), root);
      } else {
        var l5 := Step(data, l4).value;
        OpenForKeepsShape(data, ps.(lex := l5),
                          ForLoopKind(Current(l1).name, Current(l2), Current(l3), Some(Current(l4))), root);
      }
    }
  }

  lemma EndTagKeepsShape(data: string, ps: ParseState, root: nat)
    requires InRange(data, ps) && Shape(ps, root)
    ensures EndTag(data, ps).Ok? ==>
      Shape(EndTag(data, ps).value, root) && Grows(ps.records, EndTag(data, ps).value.records)
  {
    if EndTag(data, ps).Ok? {
      var stack := PopStack(ps.stack, ps.capacity).value;
      assert stack[0] == ps.stack[0];
    }
  }

  lemma EchoTagKeepsShape(data: string, ps: ParseState, root: nat)
    requires InRange(data, ps) && Shape(ps, root)
    ensures EchoTag(data, ps).Ok? ==>
      Shape(EchoTag(data, ps).value, root) && Grows(ps.records, EchoTag(data, ps).value.records)
  {
    if EchoTag(data, ps).Ok? {
      var l1 := Step(data, ps.lex).value;
      var echo := EchoElements(data, l1, []).value;
      AttachKeepsState(ps, root, EchoKind(echo.0));
    }
  }

  /** Attaching a checked node keeps the parse state's shape. */
  lemma AttachKeepsState(ps: ParseState, root: nat, kind: NodeKind)
    requires Shape(ps, root) && CheckedKind(kind) && !kind.DocumentKind?
    ensures Attach(ps.records, ps.stack, kind).Ok?
    ensures var records := Attach(ps.records, ps.stack, kind).value;
      Shape(ps.(records := records), root) && Grows(ps.records, records)
  {
    AttachKeepsTreeShape(ps.records, ps.stack, kind);
    var records := Attach(ps.records, ps.stack, kind).value;
    forall k | 0 <= k < |ps.stack|
      ensures ps.stack[k] < |records| && IsContainer(records[ps.stack[k]].kind)
    {
      assert records[ps.stack[k]].kind == ps.records[ps.stack[k]].kind;
    }
  }

  /** The whole loop keeps the shape and only grows the nodes. */
  lemma {:induction false} ParseLoopKeepsShape(data: string, ps: ParseState, root: nat)
    requires InRange(data, ps) && Shape(ps, root)
    ensures ParseLoop(data, ps).Ok? ==>
      Shape(ParseLoop(data, ps).value, root) && Grows(ps.records, ParseLoop(data, ps).value.records)
    decreases Measure(data, ps.lex)
  {
    if !(ps.lex.token.None? || IsOperator(Current(ps.lex), "EOF")) {
      IterationKeepsShape(data, ps, ps.stack[0]);
      var r := Iteration(data, ps);
      if r.Ok? {
        ParseLoopKeepsShape(data, r.value, root);
        if ParseLoop(data, ps).Ok? {
          GrowsTransitive(ps.records, r.value.records, ParseLoop(data, ps).value.records);
        }
      }
    }
  }

  /** A parsed document is a tree of nodes rooted at node 0, the only document
      node; text and echo nodes are leaves, FOR arguments have the checked
      types and echo tags hold neither "$}" nor EOF. */
  lemma ParseBuildsTree(body: Option<string>)
    ensures Parse(body).Ok? ==>
      var records := Parse(body).value;
      TreeShape(records) && |records| > 0 && ToTree(records, 0).DocumentNode? &&
      forall i :: 0 <= i < |records| ==> (records[i].kind.DocumentKind? <==> i == 0)
  {
    if body.Some? {
      var records0 := [NodeRecord(DocumentKind, None)];
      var data := body.value;
      var l := Step(data, LexState(None, 0, BASIC));
      if l.Ok? {
        var ps := ParseState(l.value, records0, [0], 16);
        assert TreeShape(records0);
        assert Shape(ps, 0);
        ParseLoopKeepsShape(data, ps, 0);
      }
    }
  }
}
