/** What SmartScriptParser.parseInput computes, as functions of the lexer's
    fields, the nodes built so far and the stack of open nodes: one function
    per branch of its loop, each reading tokens through LexerSpec.Step. */
module ParserSpec {
  import opened JavaLang
  import opened Elements
  import opened Nodes
  import opened LexerSpec

  /** parseInput's variables between two tokens: the lexer's fields (whose token
      is the parser's current token), the nodes, the stack of open nodes
      (bottom first) and the length of the stack's backing array. */
  datatype ParseState = ParseState(lex: LexState, records: seq<NodeRecord>, stack: seq<nat>, capacity: nat)

  /** The lexer index is inside the text and every stacked node exists. */
  predicate InRange(data: string, ps: ParseState)
  {
    ps.lex.index <= |data| && forall k :: 0 <= k < |ps.stack| ==> ps.stack[k] < |ps.records|
  }

  /** The element types a FOR tag accepts after its variable. */
  predicate IsForArgument(e: Element)
  {
    e.ElementVariable? || e.ElementString? || e.ElementConstantDouble? || e.ElementConstantInteger?
  }

  /** The nodes that hold children. */
  predicate IsContainer(k: NodeKind)
  {
    k.DocumentKind? || k.ForLoopKind?
  }

  /** The token a successful nextToken returned. */
  function Current(lex: LexState): Element
    requires lex.token.Some?
  {
    lex.token.value
  }

  /** ObjectStack.push of a node: it goes on top, and a full backing array is
      doubled. */
  function PushStack(stack: seq<nat>, capacity: nat, id: nat): (r: (seq<nat>, nat))
    ensures |r.0| == |stack| + 1 && r.0[..|stack|] == stack && r.0[|stack|] == id
    ensures 0 < capacity && |stack| <= capacity ==> |r.0| <= r.1 && capacity <= r.1
  {
    (stack + [id], if |stack| < capacity then capacity else 2 * capacity)
  }

  /** ObjectStack.pop with its value dropped: EmptyStackException on an empty
      stack, IndexOutOfBoundsException when the backing array is full. */
  function PopStack(stack: seq<nat>, capacity: nat): (r: Result<seq<nat>>)
    ensures r.Ok? <==> stack != [] && |stack| != capacity
    ensures r.Ok? ==> |r.value| + 1 == |stack| && forall k :: 0 <= k < |r.value| ==> r.value[k] == stack[k]
  {
    if stack == [] then Err(EmptyStack)
    else if |stack| == capacity then Err(IndexOutOfBounds)
    else Ok(stack[..|stack| - 1])
  }

  /** addChildNode of a (non-null) child on node parent. */
  function AddChild(records: seq<NodeRecord>, parent: nat, child: nat): (r: seq<NodeRecord>)
    requires parent < |records|
    ensures |r| == |records| && r[parent].kind == records[parent].kind
    ensures ChildList(r[parent]) == ChildList(records[parent]) + [child]
    ensures forall i :: 0 <= i < |r| && i != parent ==> r[i] == records[i]
  {
    records[parent := NodeRecord(records[parent].kind, Some(ChildList(records[parent]) + [child]))]
  }

  /** A new node of the given kind becomes the last child of the stack's top;
      peek fails on an empty stack. The new node's index is the old length. */
  function Attach(records: seq<NodeRecord>, stack: seq<nat>, kind: NodeKind): (r: Result<seq<NodeRecord>>)
    requires forall k :: 0 <= k < |stack| ==> stack[k] < |records|
    ensures r.Err? <==> stack == []
    ensures r.Ok? ==> |r.value| == |records| + 1 && r.value[|records|] == NodeRecord(kind, None)
    ensures r.Ok? ==> forall i :: 0 <= i < |records| && i != stack[|stack| - 1] ==> r.value[i] == records[i]
    ensures r.Ok? ==>
      var top := stack[|stack| - 1];
      r.value[top].kind == records[top].kind && ChildList(r.value[top]) == ChildList(records[top]) + [|records|]
  {
    if stack == [] then Err(EmptyStack)
    else Ok(AddChild(records + [NodeRecord(kind, None)], stack[|stack| - 1], |records|))
  }

  /** After a complete FOR tag: the loop node is attached and pushed, and the
      token after "$}" is read. */
  function OpenFor(data: string, ps: ParseState, kind: NodeKind): (r: Result<ParseState>)
    requires InRange(data, ps) && kind.ForLoopKind?
    ensures r.Ok? ==> InRange(data, r.value) && r.value.lex.token.Some?
    ensures r.Ok? ==> Measure(data, r.value.lex) < Measure(data, ps.lex)
  {
    var records :- Attach(ps.records, ps.stack, kind);
    var (stack, capacity) := PushStack(ps.stack, ps.capacity, |ps.records|);
    var lex :- Step(data, ps.lex);
    Ok(ParseState(lex, records, stack, capacity))
  }

  /** The FOR tag, its name just read: a variable, two or three arguments, "$}". */
  function ForTag(data: string, ps: ParseState): (r: Result<ParseState>)
    requires InRange(data, ps)
    ensures r.Ok? ==> InRange(data, r.value) && r.value.lex.token.Some?
    ensures r.Ok? ==> Measure(data, r.value.lex) < Measure(data, ps.lex)
  {
    var l1 :- Step(data, ps.lex);
    if !Current(l1).ElementVariable? then Err(ParserError("Invalid first for argument"))
    else
      var l2 :- Step(data, l1);
      if !IsForArgument(Current(l2)) then Err(ParserError("Invalid second for argument"))
      else
        var l3 :- Step(data, l2);
        if !IsForArgument(Current(l3)) then Err(ParserError("Invalid third for argument"))
        else
          var l4 :- Step(data, l3);
          if IsOperator(Current(l4), "$}") then
            OpenFor(data, ps.(lex := l4), ForLoopKind(Current(l1).name, Current(l2), Current(l3), None))
          else if !IsForArgument(Current(l4)) then Err(ParserError("Invalid fourth for argument"))
          else
            var l5 :- Step(data, l4);
            if IsOperator(Current(l5), "$}") then
              OpenFor(data, ps.(lex := l5),
                      ForLoopKind(Current(l1).name, Current(l2), Current(l3), Some(Current(l4))))
            else Err(ParserError("Invalid for loop"))
  }

  /** The END tag, its name just read: "$}", then the pop, then the next token,
      and only then the check that the document node was not the one popped. */
  function EndTag(data: string, ps: ParseState): (r: Result<ParseState>)
    requires InRange(data, ps)
    ensures r.Ok? ==> InRange(data, r.value) && r.value.lex.token.Some?
    ensures r.Ok? ==> Measure(data, r.value.lex) < Measure(data, ps.lex)
  {
    var l1 :- Step(data, ps.lex);
    if IsOperator(Current(l1), "$}") then
      var stack :- PopStack(ps.stack, ps.capacity);
      var l2 :- Step(data, l1);
      if |stack| == 0 then Err(ParserError("Too many ENDS"))
      else Ok(ParseState(l2, ps.records, stack, ps.capacity))
    else Err(ParserError("Invalid END tag"))
  }

  /** The tokens of an echo tag from the current one up to "$}", appended to
      acc; EOF before it is an error. The lexer is left on the "$}". */
  function EchoElements(data: string, lex: LexState, acc: seq<Element>): (r: Result<(seq<Element>, LexState)>)
    requires lex.index <= |data| && lex.token.Some?
    ensures r.Ok? ==> r.value.1.index <= |data| && r.value.1.token.Some?
    ensures r.Ok? ==> IsOperator(Current(r.value.1), "$}") && Measure(data, r.value.1) <= Measure(data, lex)
    ensures r.Ok? ==> |acc| <= |r.value.0| && r.value.0[..|acc|] == acc
    ensures r.Ok? ==> forall k :: |acc| <= k < |r.value.0| ==>
      !IsOperator(r.value.0[k], "$}") && !IsOperator(r.value.0[k], "EOF")
    decreases Measure(data, lex)
  {
    var t := Current(lex);
    if IsOperator(t, "$}") then Ok((acc, lex))
    else if IsOperator(t, "EOF") then Err(ParserError("Invalid = tag"))
    else
      var next :- Step(data, lex);
      var r := EchoElements(data, next, acc + [t]);
      if r.Ok? then
        assert r.value.0[..|acc|] == (acc + [t])[..|acc|];
        r
      else r
  }

  /** An echo tag (any other tag name, "=" included): the tokens after the name
      up to "$}" become an echo node on the stack's top, then the token after
      "$}" is read. */
  function EchoTag(data: string, ps: ParseState): (r: Result<ParseState>)
    requires InRange(data, ps)
    ensures r.Ok? ==> InRange(data, r.value) && r.value.lex.token.Some?
    ensures r.Ok? ==> Measure(data, r.value.lex) < Measure(data, ps.lex)
  {
    var l1 :- Step(data, ps.lex);
    var echo :- EchoElements(data, l1, []);
    var records :- Attach(ps.records, ps.stack, EchoKind(echo.0));
    var l2 :- Step(data, echo.1);
    Ok(ParseState(l2, records, ps.stack, ps.capacity))
  }

  /** The text loop: while the current token is no operator and its text is
      neither "EOF" nor "{$", its text joins the node's, after a space. */
  function TextRun(data: string, lex: LexState, text: string): (r: Result<(string, LexState)>)
    requires lex.index <= |data| && lex.token.Some?
    ensures r.Ok? ==> r.value.1.index <= |data| && r.value.1.token.Some?
    ensures r.Ok? ==> Measure(data, r.value.1) <= Measure(data, lex)
    ensures r.Ok? ==> |text| <= |r.value.0| && r.value.0[..|text|] == text
    ensures r.Ok? ==> var t := Current(r.value.1);
      t.ElementOperator? || AsText(t) == "EOF" || AsText(t) == "{$"
    decreases Measure(data, lex)
  {
    var t := Current(lex);
    if !t.ElementOperator? && !(AsText(t) == "EOF" || AsText(t) == "{$") then
      var next :- Step(data, lex);
      var r := TextRun(data, next, text + " " + AsText(t));
      if r.Ok? then
        assert r.value.0[..|text|] == (text + " " + AsText(t))[..|text|];
        r
      else r
    else Ok((text, lex))
  }

  /** A token outside a tag: a text node on the stack's top. The token that
      stops the text loop stays the current one. */
  function TextTag(data: string, ps: ParseState): (r: Result<ParseState>)
    requires InRange(data, ps) && ps.lex.token.Some?
    ensures r.Ok? ==> InRange(data, r.value) && r.value.lex.token.Some?
    ensures r.Ok? ==> Measure(data, r.value.lex) < Measure(data, ps.lex)
  {
    var l1 :- Step(data, ps.lex);
    var run :- TextRun(data, l1, "" + AsText(Current(ps.lex)));
    var records :- Attach(ps.records, ps.stack, TextKind(run.0));
    Ok(ParseState(run.1, records, ps.stack, ps.capacity))
  }

  /** One pass of parseInput's loop, on a current token other than EOF. */
  function Iteration(data: string, ps: ParseState): (r: Result<ParseState>)
    requires InRange(data, ps) && ps.lex.token.Some?
    ensures r.Ok? ==> InRange(data, r.value) && r.value.lex.token.Some?
    ensures r.Ok? ==> Measure(data, r.value.lex) < Measure(data, ps.lex)
  {
    if IsOperator(Current(ps.lex), "{$") then
      var l1 :- Step(data, ps.lex);
      var name := Current(l1);
      var ps1 := ps.(lex := l1);
      if IsOperator(name, "FOR") then ForTag(data, ps1)
      else if IsOperator(name, "END") then EndTag(data, ps1)
      else if name.ElementOperator? then EchoTag(data, ps1)
      else Err(ParserError("Invalid token"))
    else TextTag(data, ps)
  }

  /** parseInput's loop: passes until the current token is EOF. */
  function ParseLoop(data: string, ps: ParseState): (r: Result<ParseState>)
    requires InRange(data, ps)
    ensures r.Ok? ==> InRange(data, r.value)
    ensures r.Ok? ==> r.value.lex.token.None? || IsOperator(Current(r.value.lex), "EOF")
    decreases Measure(data, ps.lex)
  {
    if ps.lex.token.None? || IsOperator(Current(ps.lex), "EOF") then Ok(ps)
    else
      match Iteration(data, ps)
      case Err(f) => Err(f)
      case Ok(next) => ParseLoop(data, next)
  }

  /** parseInput(lexer) on a document node root: a new stack holding root, the
      first token, then the loop. */
  function ParseInput(data: string, lex: LexState, records: seq<NodeRecord>, root: nat): (r: Result<ParseState>)
    requires lex.index <= |data| && root < |records|
    ensures r.Ok? ==> InRange(data, r.value)
  {
    var (stack, capacity) := PushStack([], 16, root);
    var l :- Step(data, lex);
    ParseLoop(data, ParseState(l, records, stack, capacity))
  }

  /** new SmartScriptParser(body): the nodes of the parsed document, the
      document node being node 0; a null body is rejected by the lexer. */
  function Parse(body: Option<string>): (r: Result<seq<NodeRecord>>)
    ensures body.None? ==> r == Err(NullPointer)
  {
    if body.None? then Err(NullPointer)
    else
      var ps :- ParseInput(body.value, LexState(None, 0, BASIC), [NodeRecord(DocumentKind, None)], 0);
      Ok(ps.records)
  }
}
