/** ArrayIndexedCollection: a list stored in an array that doubles when full,
    with a fail-fast getter driven by a modification counter. */
module ArrayCollections {
  import opened JavaLang
  import opened ListSpec

  /** The elements that remain after the first k have been handed out. */
  function Rest<T>(s: seq<T>, k: nat): seq<T>
  {
    if k <= |s| then s[k..] else []
  }

  class ArrayIndexedCollection<T(==)> {
    var size: nat
    /** Slots at and beyond size hold null or stale copies. */
    var elements: array<Option<T>>
    var modificationCount: nat
    /** The elements in index order. */
    ghost var contents: seq<T>

    ghost predicate Valid()
      reads this, elements
    {
      1 <= elements.Length && size <= elements.Length && |contents| == size &&
      forall i :: 0 <= i < size ==> elements[i] == Some(contents[i])
    }

    /** The default constructor: capacity 16, empty. */
    constructor ()
      ensures Valid() && fresh(elements)
      ensures contents == [] && elements.Length == 16 && modificationCount == 0
    {
      size := 0;
      elements := new Option<T>[16](_ => None);
      modificationCount := 0;
      contents := [];
    }

    /** ArrayIndexedCollection(int initialCapacity), for a valid capacity
        (see Create for the rejected ones). */
    constructor WithCapacity(initialCapacity: nat)
      requires initialCapacity >= 1
      ensures Valid() && fresh(elements)
      ensures contents == [] && elements.Length == initialCapacity && modificationCount == 0
    {
      size := 0;
      elements := new Option<T>[initialCapacity](_ => None);
      modificationCount := 0;
      contents := [];
    }

    /** The capacity-checking constructor: a capacity below 1 is an IllegalArgumentException. */
    static method Create(initialCapacity: int) returns (r: Result<ArrayIndexedCollection<T>>)
      ensures initialCapacity < 1 ==>
        r == Err(IllegalArgument("Initial capacity can't be less then 1"))
      ensures initialCapacity >= 1 ==> (r.Ok? && fresh(r.value) && fresh(r.value.elements) &&
        r.value.Valid() && r.value.contents == [] && r.value.elements.Length == initialCapacity)
    {
      if initialCapacity < 1 {
        r := Err(IllegalArgument("Initial capacity can't be less then 1"));
      } else {
        var c := new ArrayIndexedCollection.WithCapacity(initialCapacity);
        r := Ok(c);
      }
    }

    /** Doubling: the contents move to a new array twice as long (the copy the
        two-argument copying constructor makes with capacity 2 * length). */
    method Grow()
      requires Valid()
      modifies this
      ensures Valid() && fresh(elements) && elements.Length == 2 * old(elements.Length)
      ensures size == old(size) && contents == old(contents)
      ensures modificationCount == old(modificationCount)
    {
      var bigger := new Option<T>[2 * elements.Length](_ => None);
      var i := 0;
      while i < size
        invariant 0 <= i <= size && Valid() && bigger.Length == 2 * elements.Length
        invariant elements == old(elements) && size == old(size) && contents == old(contents)
        invariant modificationCount == old(modificationCount)
        invariant forall k :: 0 <= k < i ==> bigger[k] == elements[k]
      {
        bigger[i] := elements[i];
        i := i + 1;
      }
      elements := bigger;
    }

    /** add: null is a NullPointerException; otherwise the value goes to index size,
        doubling the array first when it is full. The modification count is not bumped. */
    method Add(value: Option<T>) returns (fault: Option<Fault>)
      requires Valid()
      modifies this, elements
      ensures Valid() && modificationCount == old(modificationCount)
      ensures elements == old(elements) || fresh(elements)
      ensures value.None? ==> (fault == Some(NullPointer) && contents == old(contents) &&
        elements == old(elements))
      ensures value.Some? ==> fault == None && contents == old(contents) + [value.value]
      ensures value.Some? ==> (elements.Length ==
        if old(size) < old(elements.Length) then old(elements.Length) else 2 * old(elements.Length))
    {
      if value.None? {
        return Some(NullPointer);
      }
      if size == elements.Length {
        Grow();
      }
      elements[size] := value;
      size := size + 1;
      contents := contents + [value.value];
      fault := None;
    }

    /** get: the element at a valid index, else IndexOutOfBoundsException. */
    method Get(index: int) returns (r: Result<T>)
      requires Valid()
      ensures 0 <= index < |contents| ==> r == Ok(contents[index])
      ensures !(0 <= index < |contents|) ==> r == Err(IndexOutOfBounds)
    {
      if 0 <= index <= size - 1 {
        r := Ok(elements[index].value);
      } else {
        r := Err(IndexOutOfBounds);
      }
    }

    /** clear: nulls the used slots, size 0, capacity kept, modification counted. */
    method Clear()
      requires Valid()
      modifies this, elements
      ensures Valid() && contents == [] && elements == old(elements)
      ensures forall i :: 0 <= i < old(size) ==> elements[i] == None
      ensures modificationCount == old(modificationCount) + 1
    {
      var i := 0;
      while i < size
        invariant 0 <= i <= size <= elements.Length
        invariant elements == old(elements) && size == old(size)
        invariant modificationCount == old(modificationCount)
        invariant forall k :: 0 <= k < i ==> elements[k] == None
      {
        elements[i] := None;
        i := i + 1;
      }
      size := 0;
      contents := [];
      modificationCount := modificationCount + 1;
    }

    /** insert: a position outside 0..size is an IndexOutOfBoundsException, a null
        value a NullPointerException (raised before anything changes). Otherwise the
        elements from position on move to a temporary collection behind the value,
        the collection is cut at position and the temporary one is added back. */
    method Insert(value: Option<T>, position: int) returns (fault: Option<Fault>)
      requires Valid()
      modifies this, elements
      ensures Valid()
      ensures elements == old(elements) || fresh(elements)
      ensures !(0 <= position <= old(size)) ==> (fault == Some(IndexOutOfBounds) &&
        contents == old(contents) && modificationCount == old(modificationCount))
      ensures 0 <= position <= old(size) && value.None? ==> (fault == Some(NullPointer) &&
        contents == old(contents) && modificationCount == old(modificationCount))
      ensures 0 <= position <= old(size) && value.Some? ==> (fault == None &&
        contents == Inserted(old(contents), value.value, position) &&
        modificationCount == old(modificationCount) + 1)
      ensures fault == None ==> (elements.Length ==
        if old(size) < old(elements.Length) then old(elements.Length) else 2 * old(elements.Length))
    {
      if !(0 <= position <= size) {
        return Some(IndexOutOfBounds);
      }
      if value.None? {
        return Some(NullPointer);
      }
      ghost var before := contents;
      var rightSide := [value.value];
      var i := position;
      while i < size
        invariant position <= i <= size <= elements.Length && |before| == size
        invariant elements == old(elements) && size == old(size)
        invariant modificationCount == old(modificationCount)
        invariant rightSide == [value.value] + before[position..i]
        invariant forall k :: 0 <= k < position ==> elements[k] == Some(before[k])
        invariant forall k :: i <= k < size ==> elements[k] == Some(before[k])
      {
        rightSide := rightSide + [elements[i].value];
        elements[i] := None;
        i := i + 1;
      }
      size := position;
      contents := before[..position];
      var j := 0;
      while j < |rightSide|
        invariant 0 <= j <= |rightSide| == |before| - position + 1
        invariant Valid() && contents == before[..position] + rightSide[..j]
        invariant size == position + j
        invariant elements == old(elements) || fresh(elements)
        invariant modificationCount == old(modificationCount)
        invariant elements.Length == if position + j > old(elements.Length)
          then 2 * old(elements.Length) else old(elements.Length)
      {
        var f := Add(Some(rightSide[j]));
        j := j + 1;
      }
      assert rightSide[..j] == rightSide;
      modificationCount := modificationCount + 1;
      fault := None;
    }

    /** indexOf: the first index whose element equals the value; null is never found. */
    method IndexOf(value: Option<T>) returns (r: int)
      requires Valid()
      ensures value.None? ==> r == -1
      ensures value.Some? ==> r == FirstIndex(contents, value.value)
    {
      if value.None? {
        return -1;
      }
      var i := 0;
      while i < size
        invariant 0 <= i <= size
        invariant value.value !in contents[..i]
      {
        if elements[i] == value {
          FirstIndexAt(contents, value.value, i);
          return i;
        }
        assert contents[..i + 1] == contents[..i] + [contents[i]];
        i := i + 1;
      }
      assert contents[..i] == contents;
      r := -1;
    }

    /** remove(int): a bad index is an IndexOutOfBoundsException. Otherwise the later
        elements shift left, and then slot size (one past the last element) is
        cleared: when the array is full that slot does not exist, so the call fails
        after the shift, with size and the modification count unchanged and the last
        element now appearing twice. */
    method Remove(index: int) returns (fault: Option<Fault>)
      requires Valid()
      modifies this, elements
      ensures Valid() && elements == old(elements)
      ensures !(0 <= index < old(size)) ==> (fault == Some(IndexOutOfBounds) &&
        contents == old(contents) && modificationCount == old(modificationCount))
      ensures 0 <= index < old(size) < elements.Length ==> (fault == None &&
        contents == RemovedAt(old(contents), index) &&
        modificationCount == old(modificationCount) + 1)
      ensures 0 <= index < old(size) == elements.Length ==> (fault == Some(IndexOutOfBounds) &&
        contents == RemovedAt(old(contents), index) + [old(contents)[old(size) - 1]] &&
        modificationCount == old(modificationCount))
    {
      if !(0 <= index <= size - 1) {
        return Some(IndexOutOfBounds);
      }
      ghost var before := contents;
      var i := index;
      while i < size - 1
        invariant index <= i <= size - 1 && size <= elements.Length && |before| == size
        invariant elements == old(elements) && size == old(size)
        invariant modificationCount == old(modificationCount)
        invariant forall k :: 0 <= k < index ==> elements[k] == Some(before[k])
        invariant forall k :: index <= k < i ==> elements[k] == Some(before[k + 1])
        invariant forall k :: i <= k < size ==> elements[k] == Some(before[k])
      {
        elements[i] := elements[i + 1];
        i := i + 1;
      }
      if size == elements.Length {
        contents := RemovedAt(before, index) + [before[size - 1]];
        return Some(IndexOutOfBounds);
      }
      elements[size] := None;
      size := size - 1;
      contents := RemovedAt(before, index);
      modificationCount := modificationCount + 1;
      fault := None;
    }

    method Size() returns (r: nat)
      requires Valid()
      ensures r == |contents|
    {
      r := size;
    }

    /** contains: indexOf found the value. */
    method Contains(value: Option<T>) returns (r: bool)
      requires Valid()
      ensures r <==> value.Some? && value.value in contents
    {
      var position := IndexOf(value);
      r := position != -1;
    }

    /** remove(Object): removes the first occurrence through remove(int), so it
        shares that method's failure on a full array. */
    method RemoveValue(value: Option<T>) returns (r: Result<bool>)
      requires Valid()
      modifies this, elements
      ensures Valid() && elements == old(elements)
      ensures !(value.Some? && value.value in old(contents)) ==>
        r == Ok(false) && contents == old(contents) && modificationCount == old(modificationCount)
      ensures value.Some? && value.value in old(contents) && old(size) < elements.Length ==>
        r == Ok(true) && contents == RemovedAt(old(contents), FirstIndex(old(contents), value.value)) &&
        modificationCount == old(modificationCount) + 1
      ensures value.Some? && value.value in old(contents) && old(size) == elements.Length ==>
        r == Err(IndexOutOfBounds) &&
        contents == RemovedAt(old(contents), FirstIndex(old(contents), value.value)) + [old(contents)[old(size) - 1]] &&
        modificationCount == old(modificationCount)
    {
      var position := IndexOf(value);
      if position == -1 {
        return Ok(false);
      }
      var f := Remove(position);
      if f.Some? {
        r := Err(f.value);
      } else {
        r := Ok(true);
      }
    }

    /** toArray: a new array holding exactly the elements, in order. */
    method ToArray() returns (a: array<Option<T>>)
      requires Valid()
      ensures fresh(a) && a.Length == |contents|
      ensures forall i :: 0 <= i < a.Length ==> a[i] == Some(contents[i])
    {
      a := new Option<T>[size](_ => None);
      var i := 0;
      while i < size
        invariant 0 <= i <= size
        invariant forall k :: 0 <= k < i ==> a[k] == Some(contents[k])
      {
        a[i] := elements[i];
        i := i + 1;
      }
    }

    method GetCapacity() returns (r: nat)
      ensures r == elements.Length
    {
      r := elements.Length;
    }

    method CreateElementsGetter() returns (g: ArrayElementsGetter<T>)
      ensures fresh(g) && g.sentCollection == this && g.counter == 0
      ensures g.savedModificationCount == modificationCount
    {
      g := new ArrayElementsGetter(this);
    }
  }

  /** The getter: a cursor into the collection that refuses to work once the
      collection's modification count differs from the one it saw at creation. */
  class ArrayElementsGetter<T(==)> {
    var counter: nat
    const sentCollection: ArrayIndexedCollection<T>
    const savedModificationCount: nat

    constructor (collection: ArrayIndexedCollection<T>)
      ensures sentCollection == collection && counter == 0
      ensures savedModificationCount == collection.modificationCount
    {
      counter := 0;
      sentCollection := collection;
      savedModificationCount := collection.modificationCount;
    }

    /** No clear, insert or remove has happened since the getter was made. */
    ghost predicate Unchanged()
      reads sentCollection
    {
      savedModificationCount == sentCollection.modificationCount
    }

    method HasNextElement() returns (r: Result<bool>)
      requires sentCollection.Valid()
      ensures Unchanged() ==> r == Ok(counter < |sentCollection.contents|)
      ensures !Unchanged() ==> r == Err(ConcurrentModification)
    {
      if savedModificationCount != sentCollection.modificationCount {
        r := Err(ConcurrentModification);
      } else {
        r := Ok(counter < sentCollection.size);
      }
    }

    method GetNextElement() returns (r: Result<T>)
      requires sentCollection.Valid()
      modifies this
      ensures !Unchanged() ==> r == Err(ConcurrentModification) && counter == old(counter)
      ensures Unchanged() && old(counter) < |sentCollection.contents| ==>
        r == Ok(sentCollection.contents[old(counter)]) && counter == old(counter) + 1
      ensures Unchanged() && old(counter) >= |sentCollection.contents| ==>
        r == Err(NoSuchElement) && counter == old(counter)
    {
      if savedModificationCount != sentCollection.modificationCount {
        return Err(ConcurrentModification);
      }
      var more := HasNextElement();
      if more == Ok(true) {
        r := sentCollection.Get(counter);
        counter := counter + 1;
      } else {
        r := Err(NoSuchElement);
      }
    }

    /** processRemaining: hands every element not yet returned, in order, to the
        processor (the result is the sequence of those calls) and leaves the
        getter exhausted. */
    method ProcessRemaining() returns (processed: seq<T>, fault: Option<Fault>)
      requires sentCollection.Valid()
      modifies this
      ensures Unchanged() ==> (fault == None &&
        processed == Rest(sentCollection.contents, old(counter)) &&
        counter >= |sentCollection.contents|)
      ensures !Unchanged() ==> fault == Some(ConcurrentModification) && processed == []
    {
      processed := [];
      ghost var start := counter;
      var more := HasNextElement();
      while more == Ok(true)
        invariant more.Ok? <==> Unchanged()
        invariant more.Ok? ==> (more.value <==> counter < |sentCollection.contents|)
        invariant more.Err? ==> more == Err(ConcurrentModification)
        invariant Unchanged() ==> start <= counter
        invariant Unchanged() && start <= |sentCollection.contents| ==>
          counter <= |sentCollection.contents| && processed == sentCollection.contents[start..counter]
        invariant Unchanged() && start > |sentCollection.contents| ==> processed == []
        invariant !Unchanged() ==> processed == []
        decreases |sentCollection.contents| - counter
      {
        var next := GetNextElement();
        processed := processed + [next.value];
        more := HasNextElement();
      }
      if more.Err? {
        fault := Some(more.fault);
      } else {
        fault := None;
      }
    }
  }
}
