/** ObjectMultistack: a map from names to stacks of ValueWrappers, each stack
    a singly linked chain of MultistackEntry nodes whose top is the map value. */
module Multistack {
  import opened JavaLang
  import opened ValueWrappers

  /** One node of a stack: the wrapper it holds and the node below it. */
  class MultistackEntry {
    var value: ValueWrapper
    const next: MultistackEntry?
    /** The nodes below this one, nearest first (the chain reached through next). */
    ghost const below: seq<MultistackEntry>

    /** next and below describe the same finite chain. */
    ghost predicate Valid()
      decreases |below|
    {
      if next == null then below == []
      else |below| > 0 && below[0] == next && below[1..] == next.below && next.Valid()
    }

    constructor (value: ValueWrapper, next: MultistackEntry?)
      requires next != null ==> next.Valid()
      ensures this.value == value && this.next == next && Valid()
      ensures below == if next == null then [] else [next] + next.below
    {
      this.value := value;
      this.next := next;
      this.below := if next == null then [] else [next] + next.below;
    }

    /** The one-argument constructor: a node with nothing below it. */
    constructor Single(value: ValueWrapper)
      ensures this.value == value && next == null && below == [] && Valid()
    {
      this.value := value;
      this.next := null;
      this.below := [];
    }

    method GetValue() returns (r: ValueWrapper)
      ensures r == value
    {
      r := value;
    }

    method SetValue(w: ValueWrapper)
      modifies this
      ensures value == w
    {
      value := w;
    }

    /** setValue(Object): wraps the object in a new ValueWrapper. */
    method SetValueObject(v: Obj)
      modifies this
      ensures fresh(value) && value.value == v
    {
      value := new ValueWrapper(v);
    }

    method GetNext() returns (r: MultistackEntry?)
      ensures r == next
    {
      r := next;
    }
  }

  class ObjectMultistack {
    var entries: map<string, MultistackEntry>

    /** Every chain in the entries is well formed. */
    ghost predicate Valid()
      reads this
    {
      forall k :: k in entries ==> entries[k].Valid()
    }

    /** The nodes of the stack named k, top first; empty when k is absent. */
    ghost function Stack(k: string): seq<MultistackEntry>
      reads this
    {
      if k in entries then [entries[k]] + entries[k].below else []
    }

    /** The wrappers on top of the stacks. */
    ghost function TopWrappers(): set<ValueWrapper>
      reads this, entries.Values
    {
      set e | e in entries.Values :: e.value
    }

    /** The value each name currently stands for: what peek(k).getValue() returns. */
    ghost function TopValues(): map<string, Obj>
      reads this, entries.Values, TopWrappers()
    {
      map k | k in entries :: entries[k].value.value
    }

    constructor ()
      ensures entries == map[] && Valid()
    {
      entries := map[];
    }

    /** push: a new node on top of the named stack; no other stack changes. */
    method Push(name: string, w: ValueWrapper)
      requires Valid()
      modifies this
      ensures Valid()
      ensures name in entries && fresh(entries[name]) && entries[name].value == w
      ensures entries == old(entries)[name := entries[name]]
      ensures Stack(name) == [entries[name]] + old(Stack(name))
      ensures forall k :: k != name ==> Stack(k) == old(Stack(k))
    {
      if name in entries {
        var entry := entries[name];
        var newEntry := new MultistackEntry(w, entry);
        entries := entries[name := newEntry];
      } else {
        var newEntry := new MultistackEntry.Single(w);
        entries := entries[name := newEntry];
      }
    }

    /** pop: removes and returns the top wrapper of the named stack, dropping the
        name once its stack is empty; an absent name is an IllegalArgumentException. */
    method Pop(name: string) returns (r: Result<ValueWrapper>)
      requires Valid()
      modifies this
      ensures Valid()
      ensures old(name in entries) ==> r == Ok(old(entries[name].value))
      ensures old(name in entries) ==>
        entries == if old(entries[name].next) == null then old(entries) - {name}
               else old(entries)[name := old(entries[name].next)]
      ensures old(name in entries) ==> Stack(name) == old(Stack(name))[1..]
      ensures old(name !in entries) ==> r == Err(IllegalArgument("Key does not exist")) && entries == old(entries)
      ensures forall k :: k != name ==> Stack(k) == old(Stack(k))
    {
      if name in entries {
        var entry := entries[name];
        var next := entry.GetNext();
        if next == null {
          entries := entries - {name};
        } else {
          entries := entries[name := next];
        }
        var w := entry.GetValue();
        r := Ok(w);
      } else {
        r := Err(IllegalArgument("Key does not exist"));
      }
    }

    /** peek: the top wrapper itself (not a copy), or IllegalArgumentException. */
    method Peek(name: string) returns (r: Result<ValueWrapper>)
      ensures name in entries ==> r == Ok(entries[name].value)
      ensures name !in entries ==> r == Err(IllegalArgument("Key does not exist"))
    {
      if name in entries {
        var entry := entries[name];
        var w := entry.GetValue();
        r := Ok(w);
      } else {
        r := Err(IllegalArgument("Key does not exist"));
      }
    }

    /** isEmpty: true exactly when nothing pushed under the name remains. */
    predicate IsEmpty(name: string): (b: bool)
      reads this
      ensures b <==> Stack(name) == []
    {
      name !in entries
    }
  }

  lemma YearArithmetic()
    ensures DoCalculation(JInteger(2000), JString("5"), Plus) == Ok(JInteger(2005))
    ensures DoCalculation(JInteger(2005), JInteger(5), Plus) == Ok(JInteger(2010))
    ensures DoCalculation(JInteger(2010), JDouble(Parsed("5.0")), Plus)
         == Ok(JDouble(Computed(Plus, Widened(2010), Parsed("5.0"))))
  {
    IntegerTextActsAsInteger(JInteger(2000), 5, Plus);
    assert IntToString(5) == "5";
  }

  /** Adding "5", then 5, then 5.0 to an Integer 2000: the String and the Integer
      keep the result an Integer, the Double makes it a Double. */
  method AddFiveThreeWays(y: ValueWrapper) returns (r: Obj)
    requires y.value == JInteger(2000)
    modifies y
    ensures r == y.value == JDouble(Computed(Plus, Widened(2010), Parsed("5.0")))
  {
    YearArithmetic();
    var f1 := y.Add(JString("5"));
    var f2 := y.Add(JInteger(5));
    var f3 := y.Add(JDouble(Parsed("5.0")));
    r := y.value;
  }

  /** Pushing a new wrapper over a name, updating it through peek and popping it
      again leaves the map exactly as it was (and, since only the new wrapper
      was changed, every value visible before). */
  method ShadowUpdateAndPop(stacks: ObjectMultistack, name: string, v: Obj, update: Obj)
      returns (seen: Obj)
    requires stacks.Valid()
    modifies stacks
    ensures stacks.Valid() && stacks.entries == old(stacks.entries)
    ensures seen == update
  {
    var w := new ValueWrapper(v);
    stacks.Push(name, w);
    var peeked := stacks.Peek(name);
    assert peeked == Ok(w);
    peeked.value.SetValue(update);
    var again := stacks.Peek(name);
    seen := again.value.value;
    var popped := stacks.Pop(name);
    assert popped == Ok(w);
  }

  /** The usage the class is written for: two names with independent stacks,
      a shadowing value updated through peek and popped again, and add promoting
      an Integer to Double only when a Double is added. */
  method YearAndPrice() returns (shadow: Obj, year: Obj, price: Obj)
    ensures shadow == JInteger(1950)
    ensures price == JDouble(Parsed("200.51"))
    ensures year == JDouble(Computed(Plus, Widened(2010), Parsed("5.0")))
  {
    var stacks := new ObjectMultistack();
    var y := new ValueWrapper(JInteger(2000));
    stacks.Push("year", y);
    var p := new ValueWrapper(JDouble(Parsed("200.51")));
    stacks.Push("price", p);

    shadow := ShadowUpdateAndPop(stacks, "year", JInteger(1900), JInteger(1950));
    var top := stacks.Peek("year");
    assert top == Ok(y);
    year := AddFiveThreeWays(top.value);
    price := p.value;
  }
}
