/** The nodes of a SmartScript document. The parser builds them as objects
    whose child list (Node.collection) is allocated on the first addChildNode;
    they are held here in an arena, a node being its index, and read back as
    the immutable tree the serialiser and the engine walk. */
module Nodes {
  import opened JavaLang
  import opened Elements

  /** The subclass of a node and its fields. */
  datatype NodeKind =
    | DocumentKind
    | TextKind(text: string)
    | EchoKind(elements: seq<Element>)
      /** The step is None for the three-argument constructor. */
    | ForLoopKind(variable: string, start: Element, end: Element, step: Option<Element>)

  /** One node: its kind and its child list, None until the first addChildNode. */
  datatype NodeRecord = NodeRecord(kind: NodeKind, children: Option<seq<nat>>)

  /** The children a record lists (none while the collection is unallocated). */
  function ChildList(r: NodeRecord): seq<nat>
  {
    if r.children.Some? then r.children.value else []
  }

  /** Every child comes after its parent in the arena and exists: no node is its
      own ancestor, so the records read back as a finite tree. */
  predicate WellFormed(records: seq<NodeRecord>)
  {
    forall i :: 0 <= i < |records| ==>
      forall k :: 0 <= k < |ChildList(records[i])| ==> i < ChildList(records[i])[k] < |records|
  }

  /** The tree a node stands for. Text and echo nodes never receive children
      from the parser, so they are leaves here. */
  datatype Node =
    | DocumentNode(children: seq<Node>)
    | TextNode(text: string)
    | EchoNode(elements: seq<Element>)
    | ForLoopNode(variable: string, start: Element, end: Element, step: Option<Element>,
                  children: seq<Node>)

  /** The subtree rooted at node i: its kind, with the subtrees of its children
      in child-list order. */
  function ToTree(records: seq<NodeRecord>, i: nat): (t: Node)
    requires WellFormed(records) && i < |records|
    ensures records[i].kind.DocumentKind? <==> t.DocumentNode?
    ensures records[i].kind.ForLoopKind? <==> t.ForLoopNode?
    ensures t.DocumentNode? || t.ForLoopNode? ==> |t.children| == |ChildList(records[i])|
    decreases |records| - i
  {
    var cs := ChildList(records[i]);
    var subtrees := seq(|cs|, k requires 0 <= k < |cs| => ToTree(records, cs[k]));
    match records[i].kind
    case DocumentKind => DocumentNode(subtrees)
    case TextKind(text) => TextNode(text)
    case EchoKind(elements) => EchoNode(elements)
    case ForLoopKind(v, start, end, step) => ForLoopNode(v, start, end, step, subtrees)
  }

  /** The nodes of one parse: Node's child-list operations over the arena. */
  class NodeArena {
    var records: seq<NodeRecord>

    constructor ()
      ensures records == []
    {
      records := [];
    }

    /** A new node of the given kind: it has no child collection yet. */
    method NewNode(kind: NodeKind) returns (id: nat)
      modifies this
      ensures id == |old(records)| && records == old(records) + [NodeRecord(kind, None)]
    {
      id := |records|;
      records := records + [NodeRecord(kind, None)];
    }

    /** addChildNode: the collection is allocated if it was not, then the child
        is added to it; a null child is rejected by the collection's add, after
        the allocation. */
    method AddChildNode(parent: nat, child: Option<nat>) returns (fault: Option<Fault>)
      requires parent < |records|
      modifies this
      ensures |records| == |old(records)|
      ensures forall i :: 0 <= i < |records| && i != parent ==> records[i] == old(records)[i]
      ensures records[parent].kind == old(records)[parent].kind && records[parent].children.Some?
      ensures child.None? ==>
        fault == Some(NullPointer) && ChildList(records[parent]) == ChildList(old(records)[parent])
      ensures child.Some? ==>
        fault == None && ChildList(records[parent]) == ChildList(old(records)[parent]) + [child.value]
    {
      var r := records[parent];
      var collection := if r.children.Some? then r.children.value else [];
      if child.None? {
        records := records[parent := NodeRecord(r.kind, Some(collection))];
        return Some(NullPointer);
      }
      records := records[parent := NodeRecord(r.kind, Some(collection + [child.value]))];
      fault := None;
    }

    /** numberOfChildren: 0 while the collection is unallocated. */
    method NumberOfChildren(parent: nat) returns (n: nat)
      requires parent < |records|
      ensures n == |ChildList(records[parent])|
      ensures records[parent].children.None? ==> n == 0
    {
      var r := records[parent];
      if r.children.None? {
        return 0;
      }
      n := |r.children.value|;
    }

    /** getChild: the collection's get, so a node that never had a child fails
        on the null collection, whatever the index. */
    method GetChild(parent: nat, index: int) returns (r: Result<nat>)
      requires parent < |records|
      ensures records[parent].children.None? ==> r == Err(NullPointer)
      ensures records[parent].children.Some? && 0 <= index < |ChildList(records[parent])| ==>
        r == Ok(ChildList(records[parent])[index])
      ensures records[parent].children.Some? && !(0 <= index < |ChildList(records[parent])|) ==>
        r == Err(IndexOutOfBounds)
    {
      var rec := records[parent];
      if rec.children.None? {
        return Err(NullPointer);
      }
      var cs := rec.children.value;
      if index < 0 || index >= |cs| {
        return Err(IndexOutOfBounds);
      }
      r := Ok(cs[index]);
    }
  }

  /** A fresh node has no children and no collection to get one from; after one
      addChildNode the count is 1 and getChild(0) is that child; a null child is
      refused, but it allocates the collection, so getChild(0) then fails with
      the index check instead of the null dereference. */
  method ChildListLifecycle() returns (before: nat, fresh0: Result<nat>, after: nat,
                                       got: Result<nat>, nullFault: Option<Fault>,
                                       afterNull: Result<nat>)
    ensures before == 0 && fresh0 == Err(NullPointer)
    ensures after == 1 && got == Ok(1)
    ensures nullFault == Some(NullPointer) && afterNull == Err(IndexOutOfBounds)
  {
    var arena := new NodeArena();
    var root := arena.NewNode(DocumentKind);
    var text := arena.NewNode(TextKind("a"));
    var other := arena.NewNode(TextKind("b"));
    before := arena.NumberOfChildren(root);
    fresh0 := arena.GetChild(root, 0);
    var f := arena.AddChildNode(root, Some(text));
    after := arena.NumberOfChildren(root);
    got := arena.GetChild(root, after - 1);
    nullFault := arena.AddChildNode(other, None);
    afterNull := arena.GetChild(other, 0);
  }

  /** Adding a child keeps the arena well formed when the child comes after its
      parent, and the parent's subtree gains the child's subtree at the end. */
  lemma {:induction false} AddChildKeepsTree(records: seq<NodeRecord>, parent: nat, child: nat)
    requires WellFormed(records) && parent < child < |records|
    requires records[parent].kind.DocumentKind? || records[parent].kind.ForLoopKind?
    ensures var r := records[parent];
      var updated := records[parent := NodeRecord(r.kind, Some(ChildList(r) + [child]))];
      WellFormed(updated) &&
      ToTree(updated, parent).children == ToTree(records, parent).children + [ToTree(records, child)]
  {
    var r := records[parent];
    var updated := records[parent := NodeRecord(r.kind, Some(ChildList(r) + [child]))];
    assert WellFormed(updated) by {
      forall i | 0 <= i < |updated|
        ensures forall k :: 0 <= k < |ChildList(updated[i])| ==> i < ChildList(updated[i])[k] < |updated|
      {
        if i == parent {
          assert ChildList(updated[i]) == ChildList(r) + [child];
        } else {
          assert updated[i] == records[i];
        }
      }
    }
    SubtreesUnchanged(records, updated, parent, child);
    var cs := ChildList(r);
    assert ChildList(updated[parent]) == cs + [child];
  }

  /** Nodes after the parent, which the update does not touch, keep their
      subtrees. */
  lemma {:induction false} SubtreesUnchanged(records: seq<NodeRecord>, updated: seq<NodeRecord>,
                                             parent: nat, child: nat)
    requires WellFormed(records) && WellFormed(updated) && |updated| == |records|
    requires parent < child < |records|
    requires forall i :: 0 <= i < |records| && i != parent ==> updated[i] == records[i]
    ensures forall j :: parent < j < |records| ==> ToTree(updated, j) == ToTree(records, j)
  {
    forall j | parent < j < |records|
      ensures ToTree(updated, j) == ToTree(records, j)
    {
      SubtreeUnchanged(records, updated, parent, j);
    }
  }

  lemma {:induction false} SubtreeUnchanged(records: seq<NodeRecord>, updated: seq<NodeRecord>,
                                            parent: nat, j: nat)
    requires WellFormed(records) && WellFormed(updated) && |updated| == |records|
    requires parent < j < |records|
    requires forall i :: 0 <= i < |records| && i != parent ==> updated[i] == records[i]
    ensures ToTree(updated, j) == ToTree(records, j)
    decreases |records| - j
  {
    assert updated[j] == records[j];
    var cs := ChildList(records[j]);
    forall k | 0 <= k < |cs|
      ensures ToTree(updated, cs[k]) == ToTree(records, cs[k])
    {
      SubtreeUnchanged(records, updated, parent, cs[k]);
    }
  }
}
