/** LinkedListIndexedCollection: a doubly linked list with first/last
    references, index-based access that walks from the nearer end, and a
    fail-fast getter. */
module LinkedCollections {
  import opened JavaLang
  import opened ListSpec

  class ListNode<T> {
    var previous: ListNode?<T>
    var next: ListNode?<T>
    const value: T

    constructor (value: T)
      ensures previous == null && next == null && this.value == value
    {
      previous := null;
      next := null;
      this.value := value;
    }

    constructor WithPrevious(value: T, previous: ListNode?<T>)
      ensures this.previous == previous && next == null && this.value == value
    {
      this.previous := previous;
      next := null;
      this.value := value;
    }
  }

  /** Every position from i on has a usable previous link. */
  ghost predicate LinkedFrom(links: seq<bool>, i: int)
  {
    forall k :: i <= k < |links| && 0 <= k ==> links[k]
  }

  class LinkedListIndexedCollection<T(==)> {
    var size: nat
    var first: ListNode?<T>
    var last: ListNode?<T>
    var modificationCount: nat
    /** The nodes in forward (next) order. */
    ghost var nodes: seq<ListNode<T>>
    /** links[i]: node i's previous reference points at node i - 1. Where it does
        not, it is null (position 0 always counts as linked). */
    ghost var links: seq<bool>

    ghost predicate Valid()
      reads this, nodes
    {
      |nodes| == size && |links| == size &&
      (size == 0 ==> first == null && last == null) &&
      (size > 0 ==>
        first == nodes[0] && last == nodes[size - 1] &&
        nodes[size - 1].next == null && nodes[0].previous == null && links[0]) &&
      (forall i :: 0 <= i < size - 1 ==> nodes[i].next == nodes[i + 1]) &&
      (forall i :: 0 < i < size ==> (links[i] <==> nodes[i].previous == nodes[i - 1])) &&
      (forall i :: 0 < i < size ==> !links[i] ==> nodes[i].previous == null) &&
      (forall i, j :: 0 <= i < j < size ==> nodes[i] != nodes[j])
    }

    /** The elements in forward order. */
    ghost function Contents(): seq<T>
      reads this
    {
      var ns := nodes;
      seq(|ns|, i requires 0 <= i < |ns| => ns[i].value)
    }

    constructor ()
      ensures Valid() && nodes == [] && links == [] && modificationCount == 0
    {
      size := 0;
      first := null;
      last := null;
      modificationCount := 0;
      nodes := [];
      links := [];
    }

    /** add: null is a NullPointerException; otherwise a new last node, linked both
        ways, and the modification is counted. */
    method Add(value: Option<T>) returns (fault: Option<Fault>)
      requires Valid()
      modifies this, nodes
      ensures Valid()
      ensures value.None? ==>
        fault == Some(NullPointer) && nodes == old(nodes) && links == old(links) &&
        modificationCount == old(modificationCount)
      ensures forall n :: n in nodes ==> n in old(nodes) || fresh(n)
      ensures value.Some? ==>
        fault == None && |nodes| == |old(nodes)| + 1 && fresh(nodes[|nodes| - 1]) &&
        nodes[..|old(nodes)|] == old(nodes) && links == old(links) + [true] &&
        Contents() == old(Contents()) + [value.value] &&
        modificationCount == old(modificationCount) + 1
    {
      if value.None? {
        return Some(NullPointer);
      }
      if size == 0 {
        first := new ListNode(value.value);
        last := first;
        nodes := [first];
        links := [true];
      } else {
        var newNode := new ListNode.WithPrevious(value.value, last);
        last.next := newNode;
        last := newNode;
        nodes := nodes + [newNode];
        links := links + [true];
      }
      size := size + 1;
      modificationCount := modificationCount + 1;
      fault := None;
    }

    /** The walk from first through next references: it always succeeds. */
    method NodeFromFront(index: nat) returns (cur: ListNode<T>)
      requires Valid() && index < size
      ensures cur == nodes[index]
    {
      assert first == nodes[0];
      cur := first;
      var i := 0;
      while i < index
        invariant 0 <= i <= index && cur == nodes[i]
      {
        assert nodes[i].next == nodes[i + 1];
        cur := cur.next;
        i := i + 1;
      }
    }

    /** The walk from last through previous references: it dereferences null
        as soon as it has passed a node whose previous link is missing. */
    method NodeFromBack(index: nat) returns (r: Result<ListNode<T>>)
      requires Valid() && index < size
      ensures LinkedFrom(links, index + 1) ==> r == Ok(nodes[index])
      ensures !LinkedFrom(links, index + 1) ==> r == Err(NullPointer)
    {
      var cur := last;
      var i := size - 1;
      while i > index
        invariant index <= i < size
        invariant cur != null ==> cur == nodes[i] && LinkedFrom(links, i + 1)
        invariant cur == null ==> !LinkedFrom(links, i + 1)
      {
        if cur == null {
          return Err(NullPointer);
        }
        assert links[i] <==> nodes[i].previous == nodes[i - 1];
        assert cur.previous != null ==> links[i] && cur.previous == nodes[i - 1];
        cur := cur.previous;
        i := i - 1;
      }
      if cur == null {
        return Err(NullPointer);
      }
      r := Ok(cur);
    }

    /** The node at an index, reached from the nearer end: the front half forwards,
        the back half backwards (which fails past a missing link). */
    method NodeAt(index: nat) returns (r: Result<ListNode<T>>)
      requires Valid() && index < size
      ensures index < size / 2 || LinkedFrom(links, index + 1) ==> r == Ok(nodes[index])
      ensures !(index < size / 2 || LinkedFrom(links, index + 1)) ==> r == Err(NullPointer)
    {
      if index < size / 2 {
        var cur := NodeFromFront(index);
        r := Ok(cur);
      } else {
        r := NodeFromBack(index);
      }
    }

    /** get: an invalid index is an IndexOutOfBoundsException; otherwise the
        element of the node reached from the nearer end. */
    method Get(index: int) returns (r: Result<T>)
      requires Valid()
      ensures !(0 <= index < size) ==> r == Err(IndexOutOfBounds)
      ensures 0 <= index < size && (index < size / 2 || LinkedFrom(links, index + 1)) ==>
        r == Ok(Contents()[index])
      ensures 0 <= index < size && index >= size / 2 && !LinkedFrom(links, index + 1) ==>
        r == Err(NullPointer)
    {
      if !(0 <= index <= size - 1) {
        return Err(IndexOutOfBounds);
      }
      var found := NodeAt(index);
      if found.Err? {
        return Err(found.fault);
      }
      r := Ok(found.value.value);
    }

    /** clear: drops every node at once and counts the modification. */
    method Clear()
      requires Valid()
      modifies this
      ensures Valid() && nodes == [] && links == []
      ensures modificationCount == old(modificationCount) + 1
    {
      first := null;
      last := null;
      size := 0;
      nodes := [];
      links := [];
      modificationCount := modificationCount + 1;
    }

    /** insert at 0: the new node becomes first, but the old first node's previous
        reference is left null. */
    method InsertFirst(value: T)
      requires Valid()
      modifies this
      ensures Valid() && modificationCount == old(modificationCount) + 1
      ensures |nodes| == |old(nodes)| + 1 && fresh(nodes[0]) && nodes[1..] == old(nodes)
      ensures forall n :: n in nodes ==> n in old(nodes) || fresh(n)
      ensures Contents() == Inserted(old(Contents()), value, 0)
      ensures links == if old(size) == 0 then [true] else [true, false] + old(links)[1..]
    {
      ghost var oldNodes := nodes;
      ghost var oldContents := Contents();
      var newNode := new ListNode(value);
      newNode.next := first;
      first := newNode;
      if size == 0 {
        last := newNode;
      }
      links := if size == 0 then [true] else [true, false] + links[1..];
      nodes := [newNode] + nodes;
      size := size + 1;
      modificationCount := modificationCount + 1;
      assert nodes[1..] == oldNodes;
      assert Contents() == [value] + oldContents;
    }

    /** insert strictly inside the list: the node now at the position is found from
        the nearer end, and the new node is spliced in before it through that node's
        previous reference, which must exist. */
    method InsertMiddle(value: T, position: nat) returns (fault: Option<Fault>)
      requires Valid() && 0 < position < size
      modifies this, nodes
      ensures Valid()
      ensures fault.Some? ==>
        fault == Some(NullPointer) && nodes == old(nodes) && links == old(links) &&
        modificationCount == old(modificationCount)
      ensures forall n :: n in nodes ==> n in old(nodes) || fresh(n)
      ensures fault.None? <==>
        old(links)[position] && (position < old(size) / 2 || LinkedFrom(old(links), position + 1))
      ensures fault.None? ==>
        |nodes| == |old(nodes)| + 1 && fresh(nodes[position]) &&
        nodes[..position] == old(nodes)[..position] && nodes[position + 1..] == old(nodes)[position..] &&
        Contents() == Inserted(old(Contents()), value, position) &&
        links == Inserted(old(links), true, position) &&
        modificationCount == old(modificationCount) + 1
    {
      var found := NodeAt(position);
      if found.Err? {
        return Some(found.fault);
      }
      var cur := found.value;
      assert links[position] <==> nodes[position].previous == nodes[position - 1];
      var newNode := new ListNode.WithPrevious(value, cur.previous);
      newNode.next := cur;
      if cur.previous == null {
        return Some(NullPointer);
      }
      LinkBefore(cur, position, newNode);
      fault := None;
    }

    /** The splice itself: the node before the position and the node at it are
        pointed at the new node, which already points at both. */
    method LinkBefore(cur: ListNode<T>, position: nat, newNode: ListNode<T>)
      requires Valid() && 0 < position < size && cur == nodes[position] && links[position]
      requires newNode !in nodes && newNode.previous == nodes[position - 1] && newNode.next == cur
      modifies this, nodes[position - 1], cur
      ensures Valid()
      ensures nodes == old(nodes)[..position] + [newNode] + old(nodes)[position..]
      ensures Contents() == Inserted(old(Contents()), newNode.value, position)
      ensures links == Inserted(old(links), true, position)
      ensures modificationCount == old(modificationCount) + 1
    {
      ghost var oldNodes := nodes;
      ghost var before := nodes[position - 1];
      assert links[position] <==> nodes[position].previous == nodes[position - 1];
      cur.previous.next := newNode;
      cur.previous := newNode;
      nodes := nodes[..position] + [newNode] + nodes[position..];
      links := Inserted(links, true, position);
      size := size + 1;
      modificationCount := modificationCount + 1;
      forall i | 0 <= i < size - 1
        ensures nodes[i].next == nodes[i + 1]
      {
        if i < position - 1 {
          assert nodes[i] == oldNodes[i] && nodes[i + 1] == oldNodes[i + 1];
          assert old(oldNodes[i].next) == oldNodes[i + 1];
        } else if i > position {
          assert nodes[i] == oldNodes[i - 1] && nodes[i + 1] == oldNodes[i];
          assert old(oldNodes[i - 1].next) == oldNodes[i];
        }
      }
      forall i | 0 < i < size
        ensures (links[i] <==> nodes[i].previous == nodes[i - 1])
        ensures !links[i] ==> nodes[i].previous == null
      {
        if i < position {
          assert nodes[i] == oldNodes[i] && nodes[i - 1] == oldNodes[i - 1] && links[i] == old(links)[i];
          assert old(links)[i] <==> old(oldNodes[i].previous) == oldNodes[i - 1];
        } else if i > position + 1 {
          assert nodes[i] == oldNodes[i - 1] && nodes[i - 1] == oldNodes[i - 2] && links[i] == old(links)[i - 1];
          assert old(links)[i - 1] <==> old(oldNodes[i - 1].previous) == oldNodes[i - 2];
        }
      }
    }

    /** insert: null first (NullPointerException), then the position (0..size, else
        IndexOutOfBoundsException); 0 and size are handled at the ends. */
    method Insert(value: Option<T>, position: int) returns (fault: Option<Fault>)
      requires Valid()
      modifies this, nodes
      ensures Valid()
      ensures fault.Some? ==> nodes == old(nodes) && links == old(links) && modificationCount == old(modificationCount)
      ensures fault.None? ==> modificationCount == old(modificationCount) + 1
      ensures forall n :: n in nodes ==> n in old(nodes) || fresh(n)
      ensures value.None? ==> fault == Some(NullPointer) && nodes == old(nodes)
      ensures value.Some? && !(0 <= position <= old(size)) ==>
        fault == Some(IndexOutOfBounds) && nodes == old(nodes)
      ensures value.Some? && 0 <= position <= old(size) && fault.None? ==>
        Contents() == Inserted(old(Contents()), value.value, position)
      ensures value.Some? && 0 <= position <= old(size) && fault.None? ==>
        links == if position == 0 then (if old(size) == 0 then [true] else [true, false] + old(links)[1..])
                 else if position == old(size) then old(links) + [true]
                 else Inserted(old(links), true, position)
      ensures value.Some? && 0 <= position <= old(size) ==>
        (fault.None? <==>
          position == 0 || position == old(size) ||
          (old(links)[position] && (position < old(size) / 2 || LinkedFrom(old(links), position + 1))))
      ensures value.Some? && 0 <= position <= old(size) && fault.Some? ==> fault == Some(NullPointer)
    {
      if value.None? {
        return Some(NullPointer);
      }
      if position < 0 || position > size {
        return Some(IndexOutOfBounds);
      }
      if position == 0 {
        InsertFirst(value.value);
        fault := None;
      } else if position == size {
        fault := Add(value);
        InsertAtEnds(old(Contents()), value.value);
      } else {
        fault := InsertMiddle(value.value, position);
      }
    }

    /** remove(int) for an index strictly inside a list of at least three: the
        node is found from the nearer end and unlinked through both its references. */
    method RemoveMiddle(index: nat) returns (fault: Option<Fault>)
      requires Valid() && 0 < index < size - 1
      modifies this, nodes
      ensures Valid()
      ensures fault.Some? ==>
        fault == Some(NullPointer) && nodes == old(nodes) && links == old(links) &&
        modificationCount == old(modificationCount)
      ensures forall n :: n in nodes ==> n in old(nodes) || fresh(n)
      ensures fault.None? <==>
        old(links)[index] && (index < old(size) / 2 || LinkedFrom(old(links), index + 1))
      ensures fault.None? ==>
        nodes == RemovedAt(old(nodes), index) &&
        Contents() == RemovedAt(old(Contents()), index) &&
        links == RemovedAt(old(links), index)[index := true] &&
        modificationCount == old(modificationCount) + 1
    {
      var found := NodeAt(index);
      if found.Err? {
        return Some(found.fault);
      }
      var cur := found.value;
      assert links[index] <==> nodes[index].previous == nodes[index - 1];
      if cur.previous == null {
        return Some(NullPointer);
      }
      Unlink(cur, index);
      fault := None;
    }

    /** The unlinking itself: the neighbours of the node are pointed at each other. */
    method Unlink(cur: ListNode<T>, index: nat)
      requires Valid() && 0 < index < size - 1 && cur == nodes[index] && links[index]
      modifies this, nodes[index - 1], nodes[index + 1]
      ensures Valid()
      ensures nodes == RemovedAt(old(nodes), index)
      ensures links == RemovedAt(old(links), index)[index := true]
      ensures modificationCount == old(modificationCount) + 1
    {
      ghost var oldNodes := nodes;
      assert links[index] <==> nodes[index].previous == nodes[index - 1];
      assert cur.next == nodes[index + 1];
      cur.previous.next := cur.next;
      cur.next.previous := cur.previous;
      nodes := RemovedAt(nodes, index);
      links := RemovedAt(links, index)[index := true];
      size := size - 1;
      modificationCount := modificationCount + 1;
      forall i | 0 <= i < size - 1
        ensures nodes[i].next == nodes[i + 1]
      {
        if i < index - 1 {
          assert nodes[i] == oldNodes[i] && nodes[i + 1] == oldNodes[i + 1];
          assert old(oldNodes[i].next) == oldNodes[i + 1];
        } else if i >= index {
          assert nodes[i] == oldNodes[i + 1] && nodes[i + 1] == oldNodes[i + 2];
          assert old(oldNodes[i + 1].next) == oldNodes[i + 2];
        }
      }
      forall i | 0 < i < size
        ensures (links[i] <==> nodes[i].previous == nodes[i - 1])
        ensures !links[i] ==> nodes[i].previous == null
      {
        if i < index {
          assert nodes[i] == oldNodes[i] && nodes[i - 1] == oldNodes[i - 1] && links[i] == old(links)[i];
          assert old(links)[i] <==> old(oldNodes[i].previous) == oldNodes[i - 1];
        } else if i > index {
          assert nodes[i] == oldNodes[i + 1] && nodes[i - 1] == oldNodes[i] && links[i] == old(links)[i + 1];
          assert old(links)[i + 1] <==> old(oldNodes[i + 1].previous) == oldNodes[i];
        }
      }
    }

    /** remove(int): a bad index is an IndexOutOfBoundsException; the only element,
        the first and the last are unlinked at the ends (the last one through its
        previous reference, which must exist). */
    method Remove(index: int) returns (fault: Option<Fault>)
      requires Valid()
      modifies this, nodes
      ensures Valid()
      ensures fault.Some? ==> nodes == old(nodes) && links == old(links) && modificationCount == old(modificationCount)
      ensures fault.None? ==> modificationCount == old(modificationCount) + 1
      ensures forall n :: n in nodes ==> n in old(nodes) || fresh(n)
      ensures !(0 <= index < old(size)) ==> fault == Some(IndexOutOfBounds) && nodes == old(nodes)
      ensures 0 <= index < old(size) && fault.None? ==>
        Contents() == RemovedAt(old(Contents()), index)
      ensures 0 <= index < old(size) && fault.None? ==>
        links == if old(size) == 1 then []
                 else if index == 0 then [true] + old(links)[2..]
                 else if index == old(size) - 1 then old(links)[..old(size) - 1]
                 else RemovedAt(old(links), index)[index := true]
      ensures 0 <= index < old(size) ==>
        (fault.None? <==>
          old(size) == 1 || index == 0 ||
          (old(links)[index] && (index < old(size) / 2 || LinkedFrom(old(links), index + 1))))
      ensures 0 <= index < old(size) && fault.Some? ==> fault == Some(NullPointer)
    {
      if index < 0 || index > size - 1 {
        return Some(IndexOutOfBounds);
      }
      if size == 1 {
        first := null;
        last := null;
        nodes := [];
        links := [];
        size := size - 1;
        modificationCount := modificationCount + 1;
        fault := None;
      } else if index == 0 {
        RemoveFirst();
        fault := None;
      } else if index == size - 1 {
        fault := RemoveLast();
      } else {
        fault := RemoveMiddle(index);
      }
    }

    /** Removing the first of at least two: the second node loses its previous
        reference and becomes first. */
    method RemoveFirst()
      requires Valid() && size >= 2
      modifies this, nodes[1]
      ensures Valid()
      ensures nodes == old(nodes)[1..] && links == [true] + old(links)[2..]
      ensures modificationCount == old(modificationCount) + 1
    {
      ghost var oldNodes := nodes;
      assert first.next == nodes[1];
      first.next.previous := null;
      first := first.next;
      nodes := nodes[1..];
      links := [true] + links[2..];
      size := size - 1;
      modificationCount := modificationCount + 1;
      forall i | 0 <= i < size - 1
        ensures nodes[i].next == nodes[i + 1]
      {
        assert nodes[i] == oldNodes[i + 1] && nodes[i + 1] == oldNodes[i + 2];
        assert old(oldNodes[i + 1].next) == oldNodes[i + 2];
      }
      forall i | 0 < i < size
        ensures (links[i] <==> nodes[i].previous == nodes[i - 1])
        ensures !links[i] ==> nodes[i].previous == null
      {
        assert nodes[i] == oldNodes[i + 1] && nodes[i - 1] == oldNodes[i] && links[i] == old(links)[i + 1];
        assert old(links)[i + 1] <==> old(oldNodes[i + 1].previous) == oldNodes[i];
      }
    }

    /** Removing the last of at least two, through the last node's previous
        reference: a missing link is a NullPointerException. */
    method RemoveLast() returns (fault: Option<Fault>)
      requires Valid() && size >= 2
      modifies this, nodes[size - 2]
      ensures Valid()
      ensures fault.Some? <==> !old(links)[old(size) - 1]
      ensures fault.Some? ==>
        fault == Some(NullPointer) && nodes == old(nodes) && links == old(links) &&
        modificationCount == old(modificationCount)
      ensures fault.None? ==>
        nodes == old(nodes)[..old(size) - 1] && links == old(links)[..old(size) - 1] &&
        modificationCount == old(modificationCount) + 1
    {
      ghost var oldNodes := nodes;
      assert links[size - 1] <==> nodes[size - 1].previous == nodes[size - 2];
      if last.previous == null {
        return Some(NullPointer);
      }
      last.previous.next := null;
      last := last.previous;
      nodes := nodes[..size - 1];
      links := links[..size - 1];
      size := size - 1;
      modificationCount := modificationCount + 1;
      fault := None;
      forall i | 0 <= i < size - 1
        ensures nodes[i].next == nodes[i + 1]
      {
        assert nodes[i] == oldNodes[i] && nodes[i + 1] == oldNodes[i + 1];
        assert old(oldNodes[i].next) == oldNodes[i + 1];
      }
    }

    method Size() returns (r: nat)
      requires Valid()
      ensures r == |Contents()|
    {
      r := size;
    }

    /** indexOf: null is never found; otherwise the first node is examined before
        the walk, so an empty list dereferences null. */
    method IndexOf(value: Option<T>) returns (r: Result<int>)
      requires Valid()
      ensures value.None? ==> r == Ok(-1)
      ensures value.Some? && size == 0 ==> r == Err(NullPointer)
      ensures value.Some? && size > 0 ==> r == Ok(FirstIndex(Contents(), value.value))
    {
      if value.None? {
        return Ok(-1);
      }
      if first == null {
        return Err(NullPointer);
      }
      var cur := first;
      var counter := 0;
      if cur.value == value.value {
        FirstIndexAt(Contents(), value.value, 0);
        return Ok(0);
      }
      assert size > 1 ==> nodes[0].next == nodes[1];
      while cur.next != null
        invariant 0 <= counter < size && cur == nodes[counter]
        invariant counter < size - 1 ==> cur.next == nodes[counter + 1]
        invariant value.value !in Contents()[..counter + 1]
        decreases size - counter
      {
        cur := cur.next;
        counter := counter + 1;
        assert counter < size - 1 ==> nodes[counter].next == nodes[counter + 1];
        if cur.value == value.value {
          FirstIndexAt(Contents(), value.value, counter);
          return Ok(counter);
        }
        assert Contents()[..counter + 1] == Contents()[..counter] + [Contents()[counter]];
      }
      assert counter == size - 1;
      assert Contents()[..counter + 1] == Contents();
      r := Ok(-1);
    }

    /** contains: indexOf found the value (so it shares indexOf's failure on an empty list). */
    method Contains(value: Option<T>) returns (r: Result<bool>)
      requires Valid()
      ensures value.Some? && size == 0 ==> r == Err(NullPointer)
      ensures !(value.Some? && size == 0) ==> r == Ok(value.Some? && value.value in Contents())
    {
      var position := IndexOf(value);
      if position.Err? {
        return Err(position.fault);
      }
      r := Ok(position.value != -1);
    }

    /** remove(Object): the first occurrence, through indexOf and remove(int). */
    method RemoveValue(value: Option<T>) returns (r: Result<bool>)
      requires Valid()
      modifies this, nodes
      ensures Valid()
      ensures modificationCount == old(modificationCount) ==> nodes == old(nodes)
      ensures modificationCount == old(modificationCount) || modificationCount == old(modificationCount) + 1
      ensures forall n :: n in nodes ==> n in old(nodes) || fresh(n)
      ensures value.None? ==> r == Ok(false)
      ensures value.Some? && old(size) == 0 ==> r == Err(NullPointer)
      ensures old(size) > 0 && !(value.Some? && value.value in old(Contents())) ==>
        r == Ok(false) && nodes == old(nodes)
      ensures r != Ok(true) ==>
        nodes == old(nodes) && links == old(links) && modificationCount == old(modificationCount) &&
        Contents() == old(Contents())
      ensures r == Ok(true) ==>
        value.Some? && value.value in old(Contents()) &&
        Contents() == RemovedAt(old(Contents()), FirstIndex(old(Contents()), value.value)) &&
        modificationCount == old(modificationCount) + 1
      ensures old(size) > 0 && value.Some? && value.value in old(Contents()) ==>
        var k := FirstIndex(old(Contents()), value.value);
        (r == Ok(true) <==>
          old(size) == 1 || k == 0 || (old(links)[k] && (k < old(size) / 2 || LinkedFrom(old(links), k + 1)))) &&
        (r != Ok(true) ==> r == Err(NullPointer) && nodes == old(nodes) && links == old(links))
    {
      var position := IndexOf(value);
      if position.Err? {
        return Err(position.fault);
      }
      if position.value == -1 {
        return Ok(false);
      }
      var f := Remove(position.value);
      if f.Some? {
        r := Err(f.value);
      } else {
        r := Ok(true);
      }
    }

    /** toArray: a new array with the elements in forward order. */
    method ToArray() returns (a: array<T>)
      requires Valid()
      ensures fresh(a) && a[..] == Contents()
    {
      if first == null {
        a := new T[0];
        return;
      }
      var v := first.value;
      a := new T[size](_ => v);
      var cur: ListNode?<T> := first;
      var counter := 0;
      while cur != null
        invariant 0 <= counter <= size
        invariant counter < size ==> cur == nodes[counter]
        invariant counter == size ==> cur == null
        invariant forall k :: 0 <= k < counter ==> a[k] == nodes[k].value
        decreases size - counter
      {
        a[counter] := cur.value;
        cur := cur.next;
        counter := counter + 1;
      }
    }

    method CreateElementsGetter() returns (g: LinkedListElementsGetter<T>)
      requires Valid()
      ensures fresh(g) && g.sentCollection == this && g.Valid() && g.position == 0
      ensures g.savedModificationCount == modificationCount
    {
      g := new LinkedListElementsGetter(this);
    }
  }

  /** The getter: the next node to hand out, and the modification count it expects. */
  class LinkedListElementsGetter<T(==)> {
    const sentCollection: LinkedListIndexedCollection<T>
    var currentNode: ListNode?<T>
    const savedModificationCount: nat
    /** How many elements have been handed out. */
    ghost var position: nat

    ghost predicate Unchanged()
      reads sentCollection
    {
      savedModificationCount == sentCollection.modificationCount
    }

    /** While the collection is unchanged, currentNode is the node at position. */
    ghost predicate Valid()
      reads this, sentCollection
    {
      savedModificationCount <= sentCollection.modificationCount &&
      (Unchanged() ==>
        position <= |sentCollection.nodes| &&
        currentNode == if position < |sentCollection.nodes| then sentCollection.nodes[position] else null)
    }

    constructor (collection: LinkedListIndexedCollection<T>)
      requires collection.Valid()
      ensures sentCollection == collection && position == 0 && Valid()
      ensures savedModificationCount == collection.modificationCount
    {
      sentCollection := collection;
      currentNode := collection.first;
      savedModificationCount := collection.modificationCount;
      position := 0;
    }

    method HasNextElement() returns (r: Result<bool>)
      requires Valid() && sentCollection.Valid()
      ensures Unchanged() ==> r == Ok(position < |sentCollection.Contents()|)
      ensures !Unchanged() ==> r == Err(ConcurrentModification)
    {
      if savedModificationCount != sentCollection.modificationCount {
        r := Err(ConcurrentModification);
      } else {
        r := Ok(currentNode != null);
      }
    }

    method GetNextElement() returns (r: Result<T>)
      requires Valid() && sentCollection.Valid()
      modifies this
      ensures Valid()
      ensures !Unchanged() ==> r == Err(ConcurrentModification) && position == old(position)
      ensures Unchanged() && old(position) < |sentCollection.Contents()| ==>
        r == Ok(sentCollection.Contents()[old(position)]) && position == old(position) + 1
      ensures Unchanged() && old(position) >= |sentCollection.Contents()| ==>
        r == Err(NoSuchElement) && position == old(position)
    {
      if savedModificationCount != sentCollection.modificationCount {
        return Err(ConcurrentModification);
      }
      var more := HasNextElement();
      if more == Ok(true) {
        var toReturn := currentNode.value;
        currentNode := currentNode.next;
        position := position + 1;
        r := Ok(toReturn);
      } else {
        r := Err(NoSuchElement);
      }
    }

    /** processRemaining: every element not yet handed out, in order; afterwards
        the getter is exhausted. */
    method ProcessRemaining() returns (processed: seq<T>, fault: Option<Fault>)
      requires Valid() && sentCollection.Valid()
      modifies this
      ensures Valid()
      ensures Unchanged() ==>
        fault == None && processed == sentCollection.Contents()[old(position)..] &&
        position == |sentCollection.Contents()|
      ensures !Unchanged() ==> fault == Some(ConcurrentModification) && processed == []
    {
      processed := [];
      ghost var start := position;
      var more := HasNextElement();
      while more == Ok(true)
        invariant Valid()
        invariant more.Ok? <==> Unchanged()
        invariant more.Err? ==> more == Err(ConcurrentModification)
        invariant more.Ok? ==> (more.value <==> position < |sentCollection.Contents()|)
        invariant Unchanged() ==>
          start <= position <= |sentCollection.Contents()| &&
          processed == sentCollection.Contents()[start..position]
        invariant !Unchanged() ==> processed == []
        decreases |sentCollection.Contents()| - position
      {
        var next := GetNextElement();
        processed := processed + [next.value];
        more := HasNextElement();
      }
      if more.Err? {
        fault := Some(more.fault);
      } else {
        fault := None;
      }
    }
  }
}
