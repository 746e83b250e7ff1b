/** Documents whose parse shows the END checks, an unclosed FOR loop and the
    echo tag's elements. */
module ParserExamples {
  import opened JavaLang
  import opened Elements
  import opened Nodes
  import opened LexerSpec
  import opened ParserSpec

  const Start := LexState(None, 0, BASIC)
  const Root := [NodeRecord(DocumentKind, None)]

  /** A first node attached to the document node. */
  lemma AttachToRoot(kind: NodeKind)
    ensures Attach(Root, [0], kind) == Ok([NodeRecord(DocumentKind, Some([1])), NodeRecord(kind, None)])
  {
    var r := Root + [NodeRecord(kind, None)];
    assert r[0] == NodeRecord(DocumentKind, None) && r[1] == NodeRecord(kind, None) && |r| == 2;
    assert ChildList(r[0]) + [1] == [1];
    var u := AddChild(r, 0, 1);
    assert u[0] == NodeRecord(DocumentKind, Some([1])) && u[1] == r[1];
    assert u == [NodeRecord(DocumentKind, Some([1])), NodeRecord(kind, None)];
  }

  /** The tokens of "{$END$}": "{$", "END", "$}", EOF. */
  lemma EndTokens()
    ensures Step("{$END$}", Start) == Ok(LexState(Some(ElementOperator("{$")), 2, INTAG))
    ensures Step("{$END$}", LexState(Some(ElementOperator("{$")), 2, INTAG))
         == Ok(LexState(Some(ElementOperator("END")), 5, INTAG))
    ensures Step("{$END$}", LexState(Some(ElementOperator("END")), 5, INTAG))
         == Ok(LexState(Some(ElementOperator("$}")), 7, BASIC))
    ensures Step("{$END$}", LexState(Some(ElementOperator("$}")), 7, BASIC))
         == Ok(LexState(Some(ElementOperator("EOF")), 7, BASIC))
  {
    var a := "{$END$}";
    OpeningStep(a);
    EndNameLexeme();
    TagNameStep(a, 2, "END", 5);
    EndClosed();
  }

  /** A document starting with "{$" opens a tag. */
  lemma OpeningStep(data: string)
    requires TagOpensAt(data, 0)
    ensures Step(data, Start) == Ok(LexState(Some(ElementOperator("{$")), 2, INTAG))
  {
  }

  /** The tag name of "{$END$}" and where it ends. */
  lemma EndNameLexeme()
    ensures TagName("{$END$}", 2) == Ok(("END", 5))
  {
    var a := "{$END$}";
    assert BlanksEnd(a, 2) == 2;
    assert NameEnd(a, 5) == 5 && NameEnd(a, 4) == 5 && NameEnd(a, 3) == 5;
    assert a[2..5] == "END";
    assert UpperCase("END") == "END";
  }

  /** The "$}" closing "{$END$}", then EOF. */
  lemma EndClosed()
    ensures Step("{$END$}", LexState(Some(ElementOperator("END")), 5, INTAG))
         == Ok(LexState(Some(ElementOperator("$}")), 7, BASIC))
    ensures Step("{$END$}", LexState(Some(ElementOperator("$}")), 7, BASIC))
         == Ok(LexState(Some(ElementOperator("EOF")), 7, BASIC))
  {
    assert BlanksEnd("{$END$}", 5) == 5;
  }

  /** An END with no open FOR pops the document node; the parser reads the
      next token and only then reports the unmatched END. */
  lemma TooManyEnds()
    ensures Parse(Some("{$END$}")) == Err(ParserError("Too many ENDS"))
  {
    var a := "{$END$}";
    EndTokens();
    var l0 := LexState(Some(ElementOperator("{$")), 2, INTAG);
    var l1 := LexState(Some(ElementOperator("END")), 5, INTAG);
    assert PopStack([0], 16) == Ok([]);
    var ps0 := ParseState(l0, Root, [0], 16);
    assert EndTag(a, ps0.(lex := l1)) == Err(ParserError("Too many ENDS"));
    assert Iteration(a, ps0) == Err(ParserError("Too many ENDS"));
    assert ParseLoop(a, ps0) == Err(ParserError("Too many ENDS"));
  }

  /** The tag name of "{$FOR i i i$}". */
  lemma ForNameToken()
    ensures Step("{$FOR i i i$}", Start) == Ok(LexState(Some(ElementOperator("{$")), 2, INTAG))
    ensures Step("{$FOR i i i$}", LexState(Some(ElementOperator("{$")), 2, INTAG))
         == Ok(LexState(Some(ElementOperator("FOR")), 5, INTAG))
  {
    OpeningStep("{$FOR i i i$}");
    ForNameRead();
  }

  /** The name FOR after the opening "{$". */
  lemma ForNameRead()
    ensures Step("{$FOR i i i$}", LexState(Some(ElementOperator("{$")), 2, INTAG))
         == Ok(LexState(Some(ElementOperator("FOR")), 5, INTAG))
  {
    ForNameLexeme();
    TagNameStep("{$FOR i i i$}", 2, "FOR", 5);
  }

  /** The tag name of "{$FOR i i i$}" and where it ends. */
  lemma ForNameLexeme()
    ensures TagName("{$FOR i i i$}", 2) == Ok(("FOR", 5))
  {
    var a := "{$FOR i i i$}";
    assert BlanksEnd(a, 2) == 2;
    assert NameEnd(a, 5) == 5 && NameEnd(a, 4) == 5 && NameEnd(a, 3) == 5;
    assert a[2..5] == "FOR";
    assert UpperCase("FOR") == "FOR";
  }

  /** After "{$" the lexer returns the tag name as an operator. */
  lemma TagNameStep(data: string, i: nat, name: string, j: nat)
    requires i <= |data| && TagName(data, i) == Ok((name, j))
    ensures Step(data, LexState(Some(ElementOperator("{$")), i, INTAG)) == Ok(LexState(Some(ElementOperator(name)), j, INTAG))
  {
  }

  /** A one-letter variable after one blank, in a tag. */
  lemma VariableToken(a: string, t: Element, k: nat)
    requires k + 2 < |a| && a[k] == ' ' && a[k + 1] == 'i' && !IsNameChar(a[k + 2])
    requires t != ElementOperator("{$") && t != ElementOperator("EOF")
    ensures Step(a, LexState(Some(t), k, INTAG)) == Ok(LexState(Some(ElementVariable("i")), k + 2, INTAG))
  {
    assert BlanksEnd(a, k + 1) == k + 1 && BlanksEnd(a, k) == k + 1;
    assert NameEnd(a, k + 2) == k + 2 && a[k + 1..k + 2] == "i";
    assert IsLetter('i');
    assert TagToken(a, k + 1) == Ok(LexState(Some(ElementVariable("i")), k + 2, INTAG));
  }

  /** The arguments and the end of "{$FOR i i i$}". */
  lemma ForArgumentTokens()
    ensures Step("{$FOR i i i$}", LexState(Some(ElementVariable("i")), 11, INTAG))
         == Ok(LexState(Some(ElementOperator("$}")), 13, BASIC))
    ensures Step("{$FOR i i i$}", LexState(Some(ElementOperator("$}")), 13, BASIC))
         == Ok(LexState(Some(ElementOperator("EOF")), 13, BASIC))
  {
    var a := "{$FOR i i i$}";
    assert BlanksEnd(a, 11) == 11;
  }

  /** The loop node of "{$FOR i i i$}" attached and pushed. */
  lemma ForLoopOpened()
    ensures var i := ElementVariable("i");
      OpenFor("{$FOR i i i$}", ParseState(LexState(Some(ElementOperator("$}")), 13, BASIC), Root, [0], 16),
              ForLoopKind("i", i, i, None))
      == Ok(ParseState(LexState(Some(ElementOperator("EOF")), 13, BASIC),
                       [NodeRecord(DocumentKind, Some([1])), NodeRecord(ForLoopKind("i", i, i, None), None)],
                       [0, 1], 16))
  {
    var i := ElementVariable("i");
    ForArgumentTokens();
    AttachToRoot(ForLoopKind("i", i, i, None));
    assert [0] + [1] == [0, 1];
    assert PushStack([0], 16, 1) == ([0, 1], 16);
  }

  /** The FOR tag of "{$FOR i i i$}", its name read. */
  lemma ForTagOpensLoop()
    ensures var i := ElementVariable("i");
      ForTag("{$FOR i i i$}", ParseState(LexState(Some(ElementOperator("FOR")), 5, INTAG), Root, [0], 16))
      == Ok(ParseState(LexState(Some(ElementOperator("EOF")), 13, BASIC),
                       [NodeRecord(DocumentKind, Some([1])), NodeRecord(ForLoopKind("i", i, i, None), None)],
                       [0, 1], 16))
  {
    var a := "{$FOR i i i$}";
    var i := ElementVariable("i");
    var l1 := LexState(Some(i), 7, INTAG);
    var l2 := LexState(Some(i), 9, INTAG);
    var l3 := LexState(Some(i), 11, INTAG);
    var l4 := LexState(Some(ElementOperator("$}")), 13, BASIC);
    var ps := ParseState(LexState(Some(ElementOperator("FOR")), 5, INTAG), Root, [0], 16);
    VariableToken(a, ElementOperator("FOR"), 5);
    VariableToken(a, i, 7);
    VariableToken(a, i, 9);
    ForArgumentTokens();
    ThreeArgumentFor(a, ps, l1, l2, l3, l4);
    ForLoopOpened();
  }

  /** A variable, two arguments and "$}" after FOR open a loop without a step. */
  lemma ThreeArgumentFor(data: string, ps: ParseState, l1: LexState, l2: LexState, l3: LexState, l4: LexState)
    requires InRange(data, ps)
    requires Step(data, ps.lex) == Ok(l1) && l1.token.Some? && Current(l1).ElementVariable?
    requires Step(data, l1) == Ok(l2) && l2.token.Some? && IsForArgument(Current(l2))
    requires Step(data, l2) == Ok(l3) && l3.token.Some? && IsForArgument(Current(l3))
    requires Step(data, l3) == Ok(l4) && l4.token == Some(ElementOperator("$}"))
    ensures InRange(data, ps.(lex := l4))
    ensures ForTag(data, ps) == OpenFor(data, ps.(lex := l4), ForLoopKind(Current(l1).name, Current(l2), Current(l3), None))
  {
  }

  /** A FOR loop without its END is accepted: the loop node is the document's
      child, has no children, and is still open when the input ends. */
  lemma UnclosedForAccepted()
    ensures Parse(Some("{$FOR i i i$}")) == Ok([NodeRecord(DocumentKind, Some([1])),
      NodeRecord(ForLoopKind("i", ElementVariable("i"), ElementVariable("i"), None), None)])
  {
    var a := "{$FOR i i i$}";
    var i := ElementVariable("i");
    ForNameToken();
    ForTagOpensLoop();
    var l0 := LexState(Some(ElementOperator("{$")), 2, INTAG);
    var l1 := LexState(Some(ElementOperator("FOR")), 5, INTAG);
    var eof := LexState(Some(ElementOperator("EOF")), 13, BASIC);
    var kind := ForLoopKind("i", i, i, None);
    var records := [NodeRecord(DocumentKind, Some([1])), NodeRecord(kind, None)];
    var ps0 := ParseState(l0, Root, [0], 16);
    var ps1 := ParseState(eof, records, [0, 1], 16);
    assert Iteration(a, ps0) == Ok(ps1) by {
      assert ForTag(a, ps0.(lex := l1)) == Ok(ps1);
    }
    SingleTagParse(a, ps0, ps1);
  }

  /** A document that is one tag and then ends parses to the records that
      tag's pass leaves. */
  lemma SingleTagParse(data: string, ps0: ParseState, ps1: ParseState)
    requires ps0 == ParseState(LexState(Some(ElementOperator("{$")), 2, INTAG), Root, [0], 16)
    requires 2 <= |data| && Step(data, Start) == Ok(ps0.lex)
    requires Iteration(data, ps0) == Ok(ps1) && ps1.lex.token == Some(ElementOperator("EOF"))
    ensures Parse(Some(data)) == Ok(ps1.records)
  {
    assert ParseLoop(data, ps1) == Ok(ps1);
    assert ParseLoop(data, ps0) == Ok(ps1);
    assert PushStack([], 16, 0) == ([0], 16);
  }

  /** The tokens of "{$= i$}". */
  lemma EchoTokens()
    ensures Step("{$= i$}", Start) == Ok(LexState(Some(ElementOperator("{$")), 2, INTAG))
    ensures Step("{$= i$}", LexState(Some(ElementOperator("{$")), 2, INTAG))
         == Ok(LexState(Some(ElementOperator("=")), 3, INTAG))
    ensures Step("{$= i$}", LexState(Some(ElementVariable("i")), 5, INTAG))
         == Ok(LexState(Some(ElementOperator("$}")), 7, BASIC))
    ensures Step("{$= i$}", LexState(Some(ElementOperator("$}")), 7, BASIC))
         == Ok(LexState(Some(ElementOperator("EOF")), 7, BASIC))
  {
    var a := "{$= i$}";
    assert BlanksEnd(a, 2) == 2;
    assert BlanksEnd(a, 5) == 5;
  }

  /** The echo tag of "{$= i$}", its name read. */
  lemma EchoTagOfVariable()
    ensures var i := ElementVariable("i");
      EchoTag("{$= i$}", ParseState(LexState(Some(ElementOperator("=")), 3, INTAG), Root, [0], 16))
      == Ok(ParseState(LexState(Some(ElementOperator("EOF")), 7, BASIC),
                       [NodeRecord(DocumentKind, Some([1])), NodeRecord(EchoKind([i]), None)], [0], 16))
  {
    var a := "{$= i$}";
    var i := ElementVariable("i");
    EchoTokens();
    VariableToken(a, ElementOperator("="), 3);
    var l2 := LexState(Some(i), 5, INTAG);
    var l3 := LexState(Some(ElementOperator("$}")), 7, BASIC);
    assert EchoElements(a, l3, [i]) == Ok(([i], l3));
    assert [] + [i] == [i];
    assert EchoElements(a, l2, []) == Ok(([i], l3));
    AttachToRoot(EchoKind([i]));
  }

  /** An echo tag holds the tokens after its name, the name itself excluded. */
  lemma EchoHoldsTokensAfterName()
    ensures Parse(Some("{$= i$}")) == Ok([NodeRecord(DocumentKind, Some([1])),
      NodeRecord(EchoKind([ElementVariable("i")]), None)])
  {
    var a := "{$= i$}";
    var i := ElementVariable("i");
    EchoTokens();
    EchoTagOfVariable();
    var l0 := LexState(Some(ElementOperator("{$")), 2, INTAG);
    var l1 := LexState(Some(ElementOperator("=")), 3, INTAG);
    var eof := LexState(Some(ElementOperator("EOF")), 7, BASIC);
    var records := [NodeRecord(DocumentKind, Some([1])), NodeRecord(EchoKind([i]), None)];
    var ps0 := ParseState(l0, Root, [0], 16);
    var ps1 := ParseState(eof, records, [0], 16);
    assert Iteration(a, ps0) == Ok(ps1) by {
      assert EchoTag(a, ps0.(lex := l1)) == Ok(ps1);
    }
    SingleTagParse(a, ps0, ps1);
  }

  /** An END tag on a stack that fills its backing array fails in pop, before
      the next token is read. */
  lemma EndAtFullStackFails(data: string, ps: ParseState, name: LexState, close: LexState)
    requires InRange(data, ps) && ps.lex.token.Some? && IsOperator(Current(ps.lex), "{$")
    requires Step(data, ps.lex) == Ok(name) && IsOperator(Current(name), "END")
    requires Step(data, name) == Ok(close) && IsOperator(Current(close), "$}")
    requires ps.stack != [] && |ps.stack| == ps.capacity
    ensures Iteration(data, ps) == Err(IndexOutOfBounds)
  {
    assert PopStack(ps.stack, ps.capacity) == Err(IndexOutOfBounds);
  }
}
