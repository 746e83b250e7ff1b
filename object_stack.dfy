/** ObjectStack: a stack adapter whose top is the last element of an
    ArrayIndexedCollection. */
module ObjectStacks {
  import opened JavaLang
  import opened ArrayCollections

  class ObjectStack<T(==)> {
    const storage: ArrayIndexedCollection<T>

    ghost predicate Valid()
      reads this, storage, storage.elements
    {
      storage.Valid()
    }

    /** The stacked values, bottom first. */
    ghost function Contents(): seq<T>
      reads this, storage
    {
      storage.contents
    }

    /** The length of the backing array: a pop at this size fails. */
    ghost function Capacity(): nat
      reads this, storage
    {
      storage.elements.Length
    }

    constructor ()
      ensures Valid() && fresh(storage) && fresh(storage.elements)
      ensures Contents() == [] && Capacity() == 16
    {
      storage := new ArrayIndexedCollection();
    }

    method IsEmpty() returns (b: bool)
      requires Valid()
      ensures b <==> Contents() == []
    {
      var n := storage.Size();
      b := n == 0;
    }

    method Size() returns (n: nat)
      requires Valid()
      ensures n == |Contents()|
    {
      n := storage.Size();
    }

    /** push: null is rejected by the collection; otherwise the value becomes the
        top, and the backing array doubles when it was full. */
    method Push(value: Option<T>) returns (fault: Option<Fault>)
      requires Valid()
      modifies storage, storage.elements
      ensures Valid()
      ensures storage.elements == old(storage.elements) || fresh(storage.elements)
      ensures value.None? ==>
        fault == Some(NullPointer) && Contents() == old(Contents()) && Capacity() == old(Capacity())
      ensures value.Some? ==> fault == None && Contents() == old(Contents()) + [value.value]
      ensures value.Some? ==>
        Capacity() == if |old(Contents())| < old(Capacity()) then old(Capacity()) else 2 * old(Capacity())
    {
      fault := storage.Add(value);
    }

    /** pop: EmptyStackException on an empty stack; otherwise the top is read and
        then removed through remove(size - 1), which fails when the backing array
        is full (its shift loop is empty then, so nothing changes). */
    method Pop() returns (r: Result<T>)
      requires Valid()
      modifies storage, storage.elements
      ensures Valid() && storage.elements == old(storage.elements)
      ensures old(Contents()) == [] ==> r == Err(EmptyStack) && Contents() == []
      ensures old(Contents()) != [] && |old(Contents())| < Capacity() ==>
        r == Ok(old(Contents())[|old(Contents())| - 1]) &&
        Contents() == old(Contents())[..|old(Contents())| - 1]
      ensures old(Contents()) != [] && |old(Contents())| == Capacity() ==>
        r == Err(IndexOutOfBounds) && Contents() == old(Contents())
    {
      var empty := IsEmpty();
      if empty {
        return Err(EmptyStack);
      }
      var n := storage.Size();
      var toReturn := storage.Get(n - 1);
      var f := storage.Remove(n - 1);
      if f.Some? {
        assert storage.contents == old(storage.contents);
        r := Err(f.value);
      } else {
        r := toReturn;
      }
    }

    /** peek: the top, or EmptyStackException; the stack is left as it is. */
    method Peek() returns (r: Result<T>)
      requires Valid()
      ensures Contents() == [] ==> r == Err(EmptyStack)
      ensures Contents() != [] ==> r == Ok(Contents()[|Contents()| - 1])
    {
      var empty := IsEmpty();
      if empty {
        return Err(EmptyStack);
      }
      var n := storage.Size();
      r := storage.Get(n - 1);
    }

    method Clear()
      requires Valid()
      modifies storage, storage.elements
      ensures Valid() && Contents() == [] && Capacity() == old(Capacity())
    {
      storage.Clear();
    }
  }

  /** A stack of sixteen values fills the default array exactly, so popping it
      fails, and the failed pop leaves the stack as it was; a seventeenth push
      doubles the array and popping works again. */
  method PopAtCapacity() returns (first: Result<int>, afterGrowth: Result<int>)
    ensures first == Err(IndexOutOfBounds)
    ensures afterGrowth == Ok(16)
  {
    var stack := new ObjectStack<int>();
    var i := 0;
    while i < 16
      invariant 0 <= i <= 16 && stack.Valid()
      invariant fresh(stack.storage) && fresh(stack.storage.elements)
      invariant |stack.Contents()| == i && stack.Capacity() == 16
    {
      var f := stack.Push(Some(i));
      i := i + 1;
    }
    first := stack.Pop();
    var f := stack.Push(Some(16));
    afterGrowth := stack.Pop();
  }
}
