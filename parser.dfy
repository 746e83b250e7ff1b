/** SmartScriptParser: parseInput pulls tokens from the lexer, keeps the open
    nodes on an ObjectStack and adds the nodes it builds to the arena; each
    branch of its loop is proved to do what the matching ParserSpec function
    describes. */
module Parser {
  import opened JavaLang
  import opened Elements
  import opened Nodes
  import opened LexerSpec
  import opened Lexer
  import opened ObjectStacks
  import opened ParserSpec

  class SmartScriptParser {
    const arena: NodeArena
    /** The root of the tree. */
    const documentNode: nat

    /** A parser whose document node has no children yet. */
    constructor ()
      ensures fresh(arena) && arena.records == [NodeRecord(DocumentKind, None)] && documentNode == 0
    {
      var a := new NodeArena();
      var root := a.NewNode(DocumentKind);
      arena := a;
      documentNode := root;
    }

    /** getDocumentNode. */
    method GetDocumentNode() returns (root: nat)
      ensures root == documentNode
    {
      root := documentNode;
    }

    /** parseInput's variables, as ParserSpec sees them. */
    ghost function State(lexer: SmartScriptLexer, stack: ObjectStack<nat>): ParseState
      reads this, arena, lexer, stack, stack.storage
    {
      ParseState(lexer.Fields(), arena.records, stack.Contents(), stack.Capacity())
    }

    /** A new node of the given kind as the last child of the stack's top. */
    method AttachNode(stack: ObjectStack<nat>, kind: NodeKind) returns (fault: Option<Fault>)
      requires stack.Valid() && forall k :: 0 <= k < |stack.Contents()| ==> stack.Contents()[k] < |arena.records|
      modifies arena
      ensures match Attach(old(arena.records), stack.Contents(), kind)
        case Ok(records) => fault == None && arena.records == records
        case Err(f) => fault == Some(f)
    {
      var node := arena.NewNode(kind);
      var previous := stack.Peek();
      if previous.Err? {
        return Some(previous.fault);
      }
      var f := arena.AddChildNode(previous.value, Some(node));
      assert arena.records == AddChild(old(arena.records) + [NodeRecord(kind, None)], previous.value, node);
      fault := None;
    }

    /** A complete FOR tag: the loop node is attached and pushed, and the next
        token read. */
    method OpenLoop(lexer: SmartScriptLexer, stack: ObjectStack<nat>, kind: NodeKind) returns (fault: Option<Fault>)
      requires lexer.Valid() && stack.Valid() && InRange(lexer.data, State(lexer, stack)) && kind.ForLoopKind?
      modifies lexer, arena, stack.storage, stack.storage.elements
      ensures lexer.Valid() && stack.Valid()
      ensures stack.storage.elements == old(stack.storage.elements) || fresh(stack.storage.elements)
      ensures match OpenFor(lexer.data, old(State(lexer, stack)), kind)
        case Ok(ps) => fault == None && State(lexer, stack) == ps
        case Err(f) => fault == Some(f)
    {
      var node := |arena.records|;
      fault := AttachNode(stack, kind);
      if fault.Some? {
        return;
      }
      var g := stack.Push(Some(node));
      var r := lexer.NextToken();
      if r.Err? {
        return Some(r.fault);
      }
    }

    /** The FOR tag, after its name. */
    method ForTag(lexer: SmartScriptLexer, stack: ObjectStack<nat>) returns (fault: Option<Fault>)
      requires lexer.Valid() && stack.Valid() && InRange(lexer.data, State(lexer, stack))
      modifies lexer, arena, stack.storage, stack.storage.elements
      ensures lexer.Valid() && stack.Valid()
      ensures stack.storage.elements == old(stack.storage.elements) || fresh(stack.storage.elements)
      ensures match ParserSpec.ForTag(lexer.data, old(State(lexer, stack)))
        case Ok(ps) => fault == None && State(lexer, stack) == ps
        case Err(f) => fault == Some(f)
    {
      ghost var ps := State(lexer, stack);
      var r1 := lexer.NextToken();
      if r1.Err? {
        return Some(r1.fault);
      }
      var token1 := r1.value;
      if !token1.ElementVariable? {
        return Some(ParserError("Invalid first for argument"));
      }
      var r2 := lexer.NextToken();
      if r2.Err? {
        return Some(r2.fault);
      }
      var token2 := r2.value;
      if !IsForArgument(token2) {
        return Some(ParserError("Invalid second for argument"));
      }
      var r3 := lexer.NextToken();
      if r3.Err? {
        return Some(r3.fault);
      }
      var token3 := r3.value;
      if !IsForArgument(token3) {
        return Some(ParserError("Invalid third for argument"));
      }
      var r4 := lexer.NextToken();
      if r4.Err? {
        return Some(r4.fault);
      }
      var token4 := r4.value;
      if IsOperator(token4, "$}") {
        fault := OpenLoop(lexer, stack, ForLoopKind(token1.name, token2, token3, None));
      } else if !IsForArgument(token4) {
        return Some(ParserError("Invalid fourth for argument"));
      } else {
        var r5 := lexer.NextToken();
        if r5.Err? {
          return Some(r5.fault);
        }
        var token5 := r5.value;
        if IsOperator(token5, "$}") {
          fault := OpenLoop(lexer, stack, ForLoopKind(token1.name, token2, token3, Some(token4)));
        } else {
          return Some(ParserError("Invalid for loop"));
        }
      }
    }

    /** The END tag, after its name: the pop comes before the next token, and
        the check for an emptied stack after it. */
    method EndTag(lexer: SmartScriptLexer, stack: ObjectStack<nat>) returns (fault: Option<Fault>)
      requires lexer.Valid() && stack.Valid() && InRange(lexer.data, State(lexer, stack))
      modifies lexer, stack.storage, stack.storage.elements
      ensures lexer.Valid() && stack.Valid()
      ensures stack.storage.elements == old(stack.storage.elements)
      ensures match ParserSpec.EndTag(lexer.data, old(State(lexer, stack)))
        case Ok(ps) => fault == None && State(lexer, stack) == ps
        case Err(f) => fault == Some(f)
    {
      var r1 := lexer.NextToken();
      if r1.Err? {
        return Some(r1.fault);
      }
      var token1 := r1.value;
      if IsOperator(token1, "$}") {
        var popped := stack.Pop();
        if popped.Err? {
          return Some(popped.fault);
        }
        var r2 := lexer.NextToken();
        if r2.Err? {
          return Some(r2.fault);
        }
        var size := stack.Size();
        if size == 0 {
          return Some(ParserError("Too many ENDS"));
        }
        fault := None;
      } else {
        fault := Some(ParserError("Invalid END tag"));
      }
    }

    /** An echo tag, after its name: the tokens up to "$}" become an echo node. */
    method EchoTag(lexer: SmartScriptLexer, stack: ObjectStack<nat>) returns (fault: Option<Fault>)
      requires lexer.Valid() && stack.Valid() && InRange(lexer.data, State(lexer, stack))
      modifies lexer, arena
      ensures lexer.Valid()
      ensures match ParserSpec.EchoTag(lexer.data, old(State(lexer, stack)))
        case Ok(ps) => fault == None && State(lexer, stack) == ps
        case Err(f) => fault == Some(f)
    {
      var r := lexer.NextToken();
      if r.Err? {
        return Some(r.fault);
      }
      var token := r.value;
      ghost var l1 := lexer.Fields();
      var elements: seq<Element> := [];
      while !IsOperator(token, "$}")
        invariant lexer.Valid() && lexer.token == Some(token)
        invariant arena.records == old(arena.records)
        invariant EchoElements(lexer.data, lexer.Fields(), elements) == EchoElements(lexer.data, l1, [])
        decreases Measure(lexer.data, lexer.Fields())
      {
        if IsOperator(token, "EOF") {
          return Some(ParserError("Invalid = tag"));
        }
        elements := elements + [token];
        r := lexer.NextToken();
        if r.Err? {
          return Some(r.fault);
        }
        token := r.value;
      }
      fault := AttachNode(stack, EchoKind(elements));
      if fault.Some? {
        return;
      }
      r := lexer.NextToken();
      if r.Err? {
        return Some(r.fault);
      }
    }

    /** A token outside a tag and the tokens joined to it: a text node. */
    method TextTag(lexer: SmartScriptLexer, stack: ObjectStack<nat>, first: Element) returns (fault: Option<Fault>)
      requires lexer.Valid() && stack.Valid() && InRange(lexer.data, State(lexer, stack))
      requires lexer.token == Some(first)
      modifies lexer, arena
      ensures lexer.Valid()
      ensures match ParserSpec.TextTag(lexer.data, old(State(lexer, stack)))
        case Ok(ps) => fault == None && State(lexer, stack) == ps
        case Err(f) => fault == Some(f)
    {
      var text := "" + AsText(first);
      var r := lexer.NextToken();
      if r.Err? {
        return Some(r.fault);
      }
      var token := r.value;
      ghost var l1 := lexer.Fields();
      while !token.ElementOperator? && !(AsText(token) == "EOF" || AsText(token) == "{$")
        invariant lexer.Valid() && lexer.token == Some(token)
        invariant arena.records == old(arena.records)
        invariant TextRun(lexer.data, lexer.Fields(), text) == TextRun(lexer.data, l1, "" + AsText(first))
        decreases Measure(lexer.data, lexer.Fields())
      {
        text := text + " " + AsText(token);
        r := lexer.NextToken();
        if r.Err? {
          return Some(r.fault);
        }
        token := r.value;
      }
      fault := AttachNode(stack, TextKind(text));
    }

    /** One pass of parseInput's loop on the current token. */
    method ParseOne(lexer: SmartScriptLexer, stack: ObjectStack<nat>, token: Element) returns (fault: Option<Fault>)
      requires lexer.Valid() && stack.Valid() && InRange(lexer.data, State(lexer, stack))
      requires lexer.token == Some(token)
      modifies lexer, arena, stack.storage, stack.storage.elements
      ensures lexer.Valid() && stack.Valid()
      ensures stack.storage.elements == old(stack.storage.elements) || fresh(stack.storage.elements)
      ensures match Iteration(lexer.data, old(State(lexer, stack)))
        case Ok(ps) => fault == None && State(lexer, stack) == ps
        case Err(f) => fault == Some(f)
    {
      if IsOperator(token, "{$") {
        var r := lexer.NextToken();
        if r.Err? {
          return Some(r.fault);
        }
        var name := r.value;
        if IsOperator(name, "FOR") {
          fault := ForTag(lexer, stack);
        } else if IsOperator(name, "END") {
          fault := EndTag(lexer, stack);
        } else if name.ElementOperator? {
          fault := EchoTag(lexer, stack);
        } else {
          fault := Some(ParserError("Invalid token"));
        }
      } else {
        fault := TextTag(lexer, stack, token);
      }
    }

    /** parseInput: a new stack holding the document node, then passes of the
        loop until the current token is EOF. On success the nodes are those
        ParserSpec.ParseInput builds. */
    method ParseInput(lexer: SmartScriptLexer) returns (fault: Option<Fault>)
      requires lexer.Valid() && documentNode < |arena.records|
      modifies lexer, arena
      ensures lexer.Valid()
      ensures match ParserSpec.ParseInput(lexer.data, old(lexer.Fields()), old(arena.records), documentNode)
        case Ok(ps) => fault == None && arena.records == ps.records && lexer.Fields() == ps.lex
        case Err(f) => fault == Some(f)
    {
      var stack := new ObjectStack<nat>();
      var g := stack.Push(Some(documentNode));
      var r := lexer.NextToken();
      if r.Err? {
        return Some(r.fault);
      }
      var token := r.value;
      ghost var start := State(lexer, stack);
      while !IsOperator(token, "EOF")
        invariant lexer.Valid() && stack.Valid() && lexer.token == Some(token)
        invariant fresh(stack.storage) && fresh(stack.storage.elements)
        invariant InRange(lexer.data, State(lexer, stack))
        invariant ParseLoop(lexer.data, State(lexer, stack)) == ParseLoop(lexer.data, start)
        decreases Measure(lexer.data, lexer.Fields())
      {
        fault := ParseOne(lexer, stack, token);
        if fault.Some? {
          return;
        }
        var current := lexer.GetToken();
        token := current.value;
      }
      fault := None;
    }
  }

  /** new SmartScriptParser(body): a null body is rejected by the lexer's
      constructor; otherwise the document is parsed, and a parse error is the
      constructor's exception. */
  method NewParser(body: Option<string>) returns (r: Result<SmartScriptParser>)
    ensures match Parse(body)
      case Ok(records) => r.Ok? && r.value.documentNode == 0 && r.value.arena.records == records
      case Err(f) => r == Err(f)
  {
    if body.None? {
      return Err(NullPointer);
    }
    var lexer := new SmartScriptLexer(body.value);
    var parser := new SmartScriptParser();
    var fault := parser.ParseInput(lexer);
    if fault.Some? {
      return Err(fault.value);
    }
    r := Ok(parser);
  }
}
