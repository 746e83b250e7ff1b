/** DocumentNode's serialiser (visitNode), toString and equals. */
module Documents {
  import opened JavaLang
  import opened Elements
  import opened Nodes

  /** The echo tag's elements: each asText followed by a space, a String element
      between double quotes (its text is not escaped again). */
  function EchoElementsText(es: seq<Element>): (r: string)
    ensures es == [] ==> r == []
    ensures |es| > 0 ==> |r| > 0 && r[|r| - 1] == ' '
  {
    if es == [] then []
    else
      var e := es[0];
      var piece := if e.ElementString? then "\"" + AsText(e) + "\" " else AsText(e) + " ";
      var rest := EchoElementsText(es[1..]);
      assert (piece + rest)[|piece + rest| - 1] == if rest == [] then piece[|piece| - 1] else rest[|rest| - 1];
      piece + rest
  }

  /** What visitNode appends for one child: text, echo and FOR nodes have a
      branch each; a nested document node matches none of them and adds nothing. */
  function Render(n: Node): string
    decreases n
  {
    match n
    case DocumentNode(_) => ""
    case TextNode(text) => text
    case EchoNode(elements) => "{$= " + EchoElementsText(elements) + "$}"
    case ForLoopNode(variable, start, end, step, children) =>
      "{$FOR " + variable + " " + AsText(start) + " " + AsText(end) + " "
        + (if step.Some? then AsText(step.value) + " " else "")
        + "$}" + VisitChildren(children) + "{$END$}"
  }

  /** The children's renderings, in index order, concatenated. */
  function VisitChildren(children: seq<Node>): string
    decreases children
  {
    if children == [] then "" else Render(children[0]) + VisitChildren(children[1..])
  }

  /** visitNode(node): the rendering of node's children. */
  function VisitNode(n: Node): string
  {
    match n
    case DocumentNode(children) => VisitChildren(children)
    case ForLoopNode(_, _, _, _, children) => VisitChildren(children)
    case _ => ""
  }

  /** DocumentNode.toString. */
  function ToString(document: Node): string
    requires document.DocumentNode?
  {
    VisitNode(document)
  }

  /** DocumentNode.equals(other): other is a DocumentNode (None stands for null
      and for any other class) with the same serialisation. */
  predicate Equals(document: Node, other: Option<Node>)
    requires document.DocumentNode?
  {
    other.Some? && other.value.DocumentNode? && ToString(document) == ToString(other.value)
  }

  /** Rendering distributes over the concatenation of child lists: the parts
      appear in order, nothing is added between them. */
  lemma {:induction false} VisitChildrenAppend(a: seq<Node>, b: seq<Node>)
    ensures VisitChildren(a + b) == VisitChildren(a) + VisitChildren(b)
    decreases |a|
  {
    if a == [] {
      assert a + b == b;
    } else {
      assert (a + b)[0] == a[0] && (a + b)[1..] == a[1..] + b;
      VisitChildrenAppend(a[1..], b);
    }
  }

  /** Appending a child appends its rendering. */
  lemma AppendChildRendering(children: seq<Node>, child: Node)
    ensures VisitChildren(children + [child]) == VisitChildren(children) + Render(child)
  {
    VisitChildrenAppend(children, [child]);
    assert VisitChildren([child]) == Render(child) + VisitChildren([]);
  }

  /** A document node among the children contributes nothing, whatever it holds:
      the serialisation is that of the other children. */
  lemma NestedDocumentIgnored(before: seq<Node>, nested: seq<Node>, after: seq<Node>)
    ensures VisitNode(DocumentNode(before + [DocumentNode(nested)] + after))
         == VisitNode(DocumentNode(before + after))
  {
    VisitChildrenAppend(before + [DocumentNode(nested)], after);
    AppendChildRendering(before, DocumentNode(nested));
    VisitChildrenAppend(before, after);
  }

  /** A document of text nodes serialises to their texts, verbatim, in order. */
  lemma {:induction false} TextChildrenVerbatim(texts: seq<string>)
    ensures VisitNode(DocumentNode(seq(|texts|, i requires 0 <= i < |texts| => TextNode(texts[i]))))
         == Concat(texts)
    decreases |texts|
  {
    var nodes := seq(|texts|, i requires 0 <= i < |texts| => TextNode(texts[i]));
    if texts != [] {
      var rest := seq(|texts| - 1, i requires 0 <= i < |texts| - 1 => TextNode(texts[1..][i]));
      assert nodes[1..] == rest;
      TextChildrenVerbatim(texts[1..]);
      assert VisitChildren(nodes) == texts[0] + VisitChildren(rest);
    }
  }

  /** The strings, one after the other. */
  function Concat(parts: seq<string>): string
  {
    if parts == [] then "" else parts[0] + Concat(parts[1..])
  }

  /** Echo tags: "{$= " then each element and a space, strings quoted. */
  lemma EchoRendering()
    ensures Render(EchoNode([ElementVariable("i"), ElementString("a b"), ElementOperator("+")]))
         == "{$= i \"a b\" + $}"
  {
    var text := "i \"a b\" + ";
    EchoSampleText();
    assert "{$= " + text + "$}" == "{$= i \"a b\" + $}";
  }

  /** The elements of the echo tag above, each followed by a space. */
  lemma EchoSampleText()
    ensures EchoElementsText([ElementVariable("i"), ElementString("a b"), ElementOperator("+")]) == "i \"a b\" + "
  {
    var e2 := [ElementOperator("+")];
    var e1 := [ElementString("a b")] + e2;
    var es := [ElementVariable("i")] + e1;
    assert EchoElementsText(e2) == "+ " by { assert e2[1..] == []; }
    assert EchoElementsText(e1) == "\"a b\" + " by { assert e1[1..] == e2; }
    assert EchoElementsText(es) == "i \"a b\" + " by { assert es[1..] == e1; }
  }

  /** FOR tags: the step only when present, the body, then {$END$}. */
  lemma ForRendering(body: seq<Node>)
    ensures Render(ForLoopNode("i", ElementConstantInteger(1), ElementVariable("n"), None, body))
         == "{$FOR i 1 n $}" + VisitChildren(body) + "{$END$}"
    ensures Render(ForLoopNode("i", ElementConstantInteger(1), ElementVariable("n"),
                               Some(ElementString("2")), body))
         == "{$FOR i 1 n 2 $}" + VisitChildren(body) + "{$END$}"
  {
    ForHeader(None, "{$FOR i 1 n $}", body);
    ForHeader(Some(ElementString("2")), "{$FOR i 1 n 2 $}", body);
  }

  /** The opening tag of the loops above, with and without their step. */
  lemma ForHeader(step: Option<Element>, header: string, body: seq<Node>)
    requires (step == None && header == "{$FOR i 1 n $}") || (step == Some(ElementString("2")) && header == "{$FOR i 1 n 2 $}")
    ensures Render(ForLoopNode("i", ElementConstantInteger(1), ElementVariable("n"), step, body))
         == header + VisitChildren(body) + "{$END$}"
  {
    assert AsText(ElementConstantInteger(1)) == "1" by {
      assert IntToString(1) == "1";
    }
    var stepText := if step.Some? then AsText(step.value) + " " else "";
    assert "{$FOR " + "i" + " " + "1" + " " + "n" + " " + stepText + "$}" == header;
  }

  /** equals is an equivalence on documents, and holds exactly when the
      serialisations agree. */
  lemma EqualsIsEquivalence(a: Node, b: Node, c: Node)
    requires a.DocumentNode? && b.DocumentNode? && c.DocumentNode?
    ensures Equals(a, Some(a))
    ensures Equals(a, Some(b)) <==> Equals(b, Some(a))
    ensures Equals(a, Some(b)) && Equals(b, Some(c)) ==> Equals(a, Some(c))
    ensures Equals(a, Some(b)) <==> ToString(a) == ToString(b)
    ensures !Equals(a, None)
  {
  }

  /** equals is coarser than the tree: two texts equal one text holding both,
      and a text equals an echo of the same characters. */
  lemma EqualsIgnoresStructure()
    ensures DocumentNode([TextNode("a"), TextNode("b")]) != DocumentNode([TextNode("ab")])
    ensures Equals(DocumentNode([TextNode("a"), TextNode("b")]), Some(DocumentNode([TextNode("ab")])))
    ensures Equals(DocumentNode([TextNode("{$= x $}")]),
                   Some(DocumentNode([EchoNode([ElementVariable("x")])])))
  {
    assert VisitChildren([TextNode("a"), TextNode("b")]) == "a" + VisitChildren([TextNode("b")]);
    assert EchoElementsText([ElementVariable("x")]) == "x ";
  }
}
