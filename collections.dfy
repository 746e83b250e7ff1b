/** The Collection interface's default methods (isEmpty, forEach, addAll,
    addAllSatisfying), written once over either implementation. */
module Collections {
  import opened JavaLang
  import opened ArrayCollections
  import opened LinkedCollections

  /** The elements of s the tester accepts, in their order. */
  function Satisfying<T>(s: seq<T>, tester: T -> bool): (r: seq<T>)
    ensures |r| <= |s|
    ensures forall i :: 0 <= i < |r| ==> r[i] in s && tester(r[i])
    ensures forall i :: 0 <= i < |s| && tester(s[i]) ==> s[i] in r
  {
    if s == [] then []
    else if tester(s[0]) then [s[0]] + Satisfying(s[1..], tester)
    else Satisfying(s[1..], tester)
  }

  /** A Collection: one of the two implementations. */
  datatype CollectionRef<T(==)> =
    | ArrayColl(arrayCollection: ArrayIndexedCollection<T>)
    | LinkedColl(linkedCollection: LinkedListIndexedCollection<T>)
  {
    /** The objects the collection's state lives in. */
    ghost function Repr(): set<object>
      reads (if ArrayColl? then {arrayCollection as object} else {linkedCollection as object})
    {
      match this
      case ArrayColl(a) => {a, a.elements}
      case LinkedColl(l) => {l} + set n: object | n in l.nodes
    }

    ghost predicate Valid()
      reads Repr()
    {
      match this
      case ArrayColl(a) => a.Valid()
      case LinkedColl(l) => l.Valid()
    }

    /** The elements in getter order. */
    ghost function Contents(): seq<T>
      reads Repr()
    {
      match this
      case ArrayColl(a) => a.contents
      case LinkedColl(l) => l.Contents()
    }

    method Size() returns (n: nat)
      requires Valid()
      ensures n == |Contents()|
    {
      match this
      case ArrayColl(a) => n := a.Size();
      case LinkedColl(l) => n := l.Size();
    }

    /** isEmpty: size() == 0. */
    method IsEmpty() returns (b: bool)
      requires Valid()
      ensures b <==> Contents() == []
    {
      var n := Size();
      b := n == 0;
    }

    /** add, dispatched to the implementation; an array collection keeps its
        array while it has room. */
    method Add(value: Option<T>) returns (fault: Option<Fault>)
      requires Valid()
      modifies Repr()
      ensures Valid() && fresh(Repr() - old(Repr()))
      ensures value.None? ==> fault == Some(NullPointer) && Contents() == old(Contents())
      ensures value.Some? ==> fault == None && Contents() == old(Contents()) + [value.value]
      ensures ArrayColl? && |old(Contents())| < old(arrayCollection.elements.Length) ==>
        arrayCollection.elements.Length == old(arrayCollection.elements.Length)
    {
      match this
      case ArrayColl(a) =>
        fault := a.Add(value);
      case LinkedColl(l) =>
        fault := l.Add(value);
    }

    /** forEach: a new getter's processRemaining, so every element once, in
        getter order (the processor's calls are the returned sequence). */
    method ForEach() returns (processed: seq<T>)
      requires Valid()
      ensures processed == Contents()
    {
      match this
      case ArrayColl(a) =>
        var g := a.CreateElementsGetter();
        var fault;
        processed, fault := g.ProcessRemaining();
      case LinkedColl(l) =>
        var g := l.CreateElementsGetter();
        var fault;
        processed, fault := g.ProcessRemaining();
    }

    /** The processor of addAll and addAllSatisfying: add each value in turn. */
    method AddEach(values: seq<T>)
      requires Valid()
      modifies Repr()
      ensures Valid() && fresh(Repr() - old(Repr()))
      ensures Contents() == old(Contents()) + values
      ensures ArrayColl? && |old(Contents())| + |values| <= old(arrayCollection.elements.Length) ==>
        arrayCollection.elements.Length == old(arrayCollection.elements.Length)
    {
      ghost var start := Repr();
      ghost var before := Contents();
      ghost var room := if ArrayColl? then arrayCollection.elements.Length else 0;
      var i := 0;
      while i < |values|
        invariant 0 <= i <= |values|
        invariant Valid() && fresh(Repr() - start)
        invariant Contents() == before + values[..i]
        invariant ArrayColl? && |before| + |values| <= room ==> arrayCollection.elements.Length == room
      {
        ghost var added := values[..i + 1];
        assert added == values[..i] + [values[i]];
        var fault := Add(Some(values[i]));
        i := i + 1;
      }
      assert values[..i] == values;
    }

    /** The heap shapes addAll and addAllSatisfying are defined for: two separate
        collections, or a collection added to itself. */
    ghost predicate SeparateOrSame(other: CollectionRef<T>)
      reads Repr(), other.Repr()
    {
      Repr() !! other.Repr() || other == this
    }

    /** addAll: the other collection's elements, in its getter order, are added
        to this one; the other collection is left unchanged. A null collection
        (None) is a NullPointerException before anything is added. Added to
        itself, a linked list appends its first element, which bumps the
        modification count, so the getter's next hasNextElement throws; an empty
        collection is left as it is. (An array collection added to itself is
        left out: see README.) */
    method AddAll(other: Option<CollectionRef<T>>) returns (fault: Option<Fault>)
      requires Valid() && (other.Some? ==> other.value.Valid() && SeparateOrSame(other.value))
      requires other == Some(this) && ArrayColl? ==> Contents() == []
      modifies Repr()
      ensures Valid() && fresh(Repr() - old(Repr()))
      ensures other.None? ==> fault == Some(NullPointer) && Contents() == old(Contents())
      ensures other.Some? && other.value != this ==> (fault == None &&
        Contents() == old(Contents()) + old(other.value.Contents()) &&
        other.value.Valid() && other.value.Contents() == old(other.value.Contents()))
      ensures (other.Some? && other.value != this && ArrayColl? &&
        |old(Contents())| + |old(other.value.Contents())| <= old(arrayCollection.elements.Length)) ==>
        arrayCollection.elements.Length == old(arrayCollection.elements.Length)
      ensures other == Some(this) && old(Contents()) == [] ==> fault == None && Contents() == []
      ensures other == Some(this) && old(Contents()) != [] ==>
        fault == Some(ConcurrentModification) && Contents() == old(Contents()) + [old(Contents())[0]]
    {
      if other.None? {
        return Some(NullPointer);
      }
      var source := other.value;
      if source != this {
        var values := source.ForEach();
        AddEachKeeping(source, values);
        return None;
      }
      match this
      case ArrayColl(a) =>
        // Empty: the getter has nothing to hand out.
        var g := a.CreateElementsGetter();
        var more := g.HasNextElement();
        assert more == Ok(false);
        fault := None;
      case LinkedColl(l) =>
        fault := AddOwn(l);
    }

    /** addAllSatisfying: only the elements the tester accepts, in order. A null
        collection (None) is a NullPointerException before anything is added.
        Added to itself, a linked list appends the first accepted element and
        then throws as addAll does; with no accepted element nothing changes. */
    method AddAllSatisfying(other: Option<CollectionRef<T>>, tester: T -> bool) returns (fault: Option<Fault>)
      requires Valid() && (other.Some? ==> other.value.Valid() && SeparateOrSame(other.value))
      requires other == Some(this) && ArrayColl? ==> Satisfying(Contents(), tester) == []
      modifies Repr()
      ensures Valid() && fresh(Repr() - old(Repr()))
      ensures other.None? ==> fault == Some(NullPointer) && Contents() == old(Contents())
      ensures other.Some? && other.value != this ==> (fault == None &&
        Contents() == old(Contents()) + Satisfying(old(other.value.Contents()), tester) &&
        other.value.Valid() && other.value.Contents() == old(other.value.Contents()))
      ensures other == Some(this) && Satisfying(old(Contents()), tester) == [] ==>
        fault == None && Contents() == old(Contents())
      ensures other == Some(this) && Satisfying(old(Contents()), tester) != [] ==>
        fault == Some(ConcurrentModification) &&
        Contents() == old(Contents()) + [Satisfying(old(Contents()), tester)[0]]
    {
      if other.None? {
        return Some(NullPointer);
      }
      var source := other.value;
      if source != this {
        var values := source.ForEach();
        AddEachKeeping(source, Satisfying(values, tester));
        return None;
      }
      fault := None;
      match this
      case ArrayColl(a) =>
        // The tester refuses every element, so nothing is added.
      case LinkedColl(l) =>
        fault := AddOwnSatisfying(l, tester);
    }

    /** AddEach leaves a collection disjoint from this one as it was. */
    method AddEachKeeping(other: CollectionRef<T>, values: seq<T>)
      requires Valid() && other.Valid() && Repr() !! other.Repr()
      modifies Repr()
      ensures Valid() && fresh(Repr() - old(Repr()))
      ensures Contents() == old(Contents()) + values
      ensures other.Valid() && other.Contents() == old(other.Contents())
      ensures ArrayColl? && |old(Contents())| + |values| <= old(arrayCollection.elements.Length) ==>
        arrayCollection.elements.Length == old(arrayCollection.elements.Length)
    {
      AddEach(values);
      match other
      case ArrayColl(a) =>
        assert a !in old(Repr()) && a.elements !in old(Repr());
        assert a.elements == old(a.elements) && a.contents == old(a.contents);
      case LinkedColl(l) =>
        assert l !in old(Repr());
        assert l.nodes == old(l.nodes);
    }
  }

  /** The tester's choice distributes over concatenation. */
  lemma {:induction false} SatisfyingAppend<T>(a: seq<T>, b: seq<T>, tester: T -> bool)
    ensures Satisfying(a + b, tester) == Satisfying(a, tester) + Satisfying(b, tester)
    decreases |a|
  {
    if a == [] {
      assert a + b == b;
    } else {
      assert (a + b)[0] == a[0] && (a + b)[1..] == a[1..] + b;
      SatisfyingAppend(a[1..], b, tester);
    }
  }

  /** When nothing before position k is accepted and s[k] is, s[k] is the first
      accepted element. */
  lemma {:induction false} SatisfyingFirst<T>(s: seq<T>, k: nat, tester: T -> bool)
    requires k < |s| && Satisfying(s[..k], tester) == [] && tester(s[k])
    ensures Satisfying(s, tester) != [] && Satisfying(s, tester)[0] == s[k]
    decreases k
  {
    if k > 0 {
      assert s[..k][0] == s[0] && s[..k][1..] == s[1..][..k - 1];
      assert !tester(s[0]);
      SatisfyingFirst(s[1..], k - 1, tester);
    }
  }

  /** addAll of a linked list with itself: the first element is handed out and
      added, which bumps the modification count, so the getter's next
      hasNextElement throws; an empty list is left as it is. */
  method AddOwn<T(==)>(l: LinkedListIndexedCollection<T>) returns (fault: Option<Fault>)
    requires l.Valid()
    modifies l, l.nodes
    ensures l.Valid() && forall n :: n in l.nodes ==> n in old(l.nodes) || fresh(n)
    ensures old(l.Contents()) == [] ==> fault == None && l.Contents() == []
    ensures old(l.Contents()) != [] ==>
      fault == Some(ConcurrentModification) && l.Contents() == old(l.Contents()) + [old(l.Contents())[0]]
  {
    var g := l.CreateElementsGetter();
    var more := g.HasNextElement();
    if more == Ok(false) {
      return None;
    }
    var v := g.GetNextElement();
    var f := l.Add(Some(v.value));
    more := g.HasNextElement();
    fault := Some(more.fault);
  }

  /** The getter's walk up to the first element the tester accepts: the
      collection is only read, so the getter stays valid. */
  method FirstAccepted<T(==)>(g: LinkedListElementsGetter<T>, tester: T -> bool) returns (v: Option<T>)
    requires g.Valid() && g.sentCollection.Valid() && g.Unchanged() && g.position == 0
    modifies g
    ensures g.Valid() && g.Unchanged()
    ensures Satisfying(g.sentCollection.Contents(), tester) == [] ==> v == None
    ensures Satisfying(g.sentCollection.Contents(), tester) != [] ==>
      v == Some(Satisfying(g.sentCollection.Contents(), tester)[0])
  {
    ghost var s := g.sentCollection.Contents();
    var more := g.HasNextElement();
    while more == Ok(true)
      invariant g.Valid() && g.Unchanged() && g.position <= |s|
      invariant more == Ok(g.position < |s|)
      invariant Satisfying(s[..g.position], tester) == []
      decreases |s| - g.position
    {
      var next := g.GetNextElement();
      SatisfyingAppend(s[..g.position - 1], [s[g.position - 1]], tester);
      assert s[..g.position] == s[..g.position - 1] + [s[g.position - 1]];
      if tester(next.value) {
        SatisfyingFirst(s, g.position - 1, tester);
        return Some(next.value);
      }
      more := g.HasNextElement();
    }
    assert s[..g.position] == s;
    v := None;
  }

  /** addAllSatisfying of a linked list with itself: elements are handed out
      until the tester accepts one; adding it bumps the modification count, so
      the getter's next hasNextElement throws. */
  method AddOwnSatisfying<T(==)>(l: LinkedListIndexedCollection<T>, tester: T -> bool)
      returns (fault: Option<Fault>)
    requires l.Valid()
    modifies l, l.nodes
    ensures l.Valid() && forall n :: n in l.nodes ==> n in old(l.nodes) || fresh(n)
    ensures Satisfying(old(l.Contents()), tester) == [] ==>
      fault == None && l.Contents() == old(l.Contents())
    ensures Satisfying(old(l.Contents()), tester) != [] ==>
      fault == Some(ConcurrentModification) &&
      l.Contents() == old(l.Contents()) + [Satisfying(old(l.Contents()), tester)[0]]
  {
    var g := l.CreateElementsGetter();
    var v := FirstAccepted(g, tester);
    if v.None? {
      return None;
    }
    var f := l.Add(v);
    var more := g.HasNextElement();
    fault := Some(more.fault);
  }

  /** ArrayIndexedCollection(Collection other, int initialCapacity), and with
      capacity 16 the one-argument form: a null collection is a
      NullPointerException, then a capacity below 1 an IllegalArgumentException;
      otherwise an array of the larger of the two sizes, filled by addAll. */
  method NewArrayFrom<T(==)>(other: Option<CollectionRef<T>>, initialCapacity: int)
      returns (r: Result<ArrayIndexedCollection<T>>)
    requires other.Some? ==> other.value.Valid()
    ensures other.None? ==> r == Err(NullPointer)
    ensures other.Some? && initialCapacity < 1 ==>
      r == Err(IllegalArgument("Initial capacity can't be less then 1"))
    ensures other.Some? && initialCapacity >= 1 ==>
      r.Ok? && fresh(r.value) && fresh(r.value.elements) && r.value.Valid() &&
      r.value.contents == other.value.Contents() &&
      r.value.elements.Length ==
        if |other.value.Contents()| > initialCapacity then |other.value.Contents()| else initialCapacity
  {
    if other.None? {
      return Err(NullPointer);
    }
    if initialCapacity < 1 {
      return Err(IllegalArgument("Initial capacity can't be less then 1"));
    }
    var source := other.value;
    ghost var sourceRepr := source.Repr();
    var n := source.Size();
    var capacity := if n > initialCapacity then n else initialCapacity;
    var c := new ArrayIndexedCollection.WithCapacity(capacity);
    var target := ArrayColl(c);
    assert target.Repr() !! sourceRepr;
    ghost var targetRepr := target.Repr();
    var fault := target.AddAll(other);
    assert c.elements in targetRepr || c.elements in target.Repr() - targetRepr;
    r := Ok(c);
  }

  /** LinkedListIndexedCollection(Collection other): an empty list filled by
      addAll; a null collection is a NullPointerException inside addAll. */
  method NewLinkedFrom<T(==)>(other: Option<CollectionRef<T>>)
      returns (r: Result<LinkedListIndexedCollection<T>>)
    requires other.Some? ==> other.value.Valid()
    ensures other.None? ==> r == Err(NullPointer)
    ensures other.Some? ==>
      r.Ok? && fresh(r.value) && r.value.Valid() && r.value.Contents() == other.value.Contents()
  {
    var c := new LinkedListIndexedCollection();
    var target := LinkedColl(c);
    assert other.Some? ==> target.SeparateOrSame(other.value);
    var fault := target.AddAll(other);
    if fault.Some? {
      return Err(fault.value);
    }
    r := Ok(c);
  }

  /** Two getters over the same unchanged collection hand out the same elements. */
  method TwoGettersAgree<T(==)>(c: CollectionRef<T>) returns (first: seq<T>, second: seq<T>)
    requires c.Valid()
    ensures first == second == c.Contents()
  {
    first := c.ForEach();
    second := c.ForEach();
  }
}
