/** Consequences of the linked list's front insertion, which does not set the
    previous reference of the node it pushes back. */
module LinkedScenarios {
  import opened JavaLang
  import opened LinkedCollections

  /** Inserting at the front leaves the old first node without a previous
      reference, so removing the last of two elements afterwards walks into null. */
  method FrontInsertThenRemoveLast() returns (fault: Option<Fault>, contents: seq<int>)
    ensures fault == Some(NullPointer)
    ensures contents == [0, 1]
  {
    var list := new LinkedListIndexedCollection<int>();
    var f := list.Add(Some(1));
    f := list.Insert(Some(0), 0);
    assert forall n :: n in list.nodes ==> fresh(n);
    fault := list.Remove(1);
    var a := list.ToArray();
    contents := a[..];
  }

  /** After two front insertions, the middle element of three is reached from the
      back, through the missing link; the last and the first remain reachable. */
  method FrontInsertsThenGet() returns (middle: Result<string>, last: Result<string>, head: Result<string>)
    ensures middle == Err(NullPointer)
    ensures last == Ok("a") && head == Ok("w")
  {
    var list := new LinkedListIndexedCollection<string>();
    var f := list.Add(Some("a"));
    f := list.Insert(Some("v"), 0);
    assert forall n :: n in list.nodes ==> fresh(n);
    f := list.Insert(Some("w"), 0);
    assert list.links == [true, false, false];
    assert list.Contents() == ["w", "v", "a"];
    middle := list.Get(1);
    last := list.Get(2);
    head := list.Get(0);
  }
}
