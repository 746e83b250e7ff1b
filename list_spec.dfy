/** The contracts of the List interface (get, insert, indexOf, remove by index),
    stated as functions on the sequence of elements a collection holds, with
    the facts about them that both implementations rely on. */
module ListSpec {

  /** insert(value, position): later elements shift right by one. */
  function Inserted<T>(s: seq<T>, v: T, p: nat): (r: seq<T>)
    requires p <= |s|
    ensures |r| == |s| + 1 && r[p] == v
    ensures forall i :: 0 <= i < p ==> r[i] == s[i]
    ensures forall i :: p < i < |r| ==> r[i] == s[i - 1]
  {
    s[..p] + [v] + s[p..]
  }

  /** remove(index): later elements shift left by one. */
  function RemovedAt<T>(s: seq<T>, i: nat): (r: seq<T>)
    requires i < |s|
    ensures |r| == |s| - 1
    ensures forall k :: 0 <= k < i ==> r[k] == s[k]
    ensures forall k :: i <= k < |r| ==> r[k] == s[k + 1]
  {
    s[..i] + s[i + 1..]
  }

  /** indexOf(value): the first position holding the value, or -1. */
  function FirstIndex<T(==)>(s: seq<T>, v: T): (r: int)
    ensures -1 <= r < |s|
    ensures r == -1 <==> v !in s
    ensures r >= 0 ==> s[r] == v && v !in s[..r]
    decreases |s|
  {
    if |s| == 0 then -1
    else if s[0] == v then 0
    else
      var k := FirstIndex(s[1..], v);
      assert s[1..][..if k < 0 then 0 else k] == s[..if k < 0 then 1 else k + 1][1..];
      if k == -1 then -1 else k + 1
  }

  /** The first occurrence is the position that holds the value with no copy before it. */
  lemma FirstIndexAt<T>(s: seq<T>, v: T, i: nat)
    requires i < |s| && s[i] == v && v !in s[..i]
    ensures FirstIndex(s, v) == i
  {
  }

  /** Removing what was just inserted gives back the original sequence. */
  lemma RemoveUndoesInsert<T>(s: seq<T>, v: T, p: nat)
    requires p <= |s|
    ensures RemovedAt(Inserted(s, v, p), p) == s
  {
    var t := Inserted(s, v, p);
    assert t[..p] == s[..p] && t[p + 1..] == s[p..];
    assert s[..p] + s[p..] == s;
  }

  /** Re-inserting a removed element at its place restores the sequence. */
  lemma InsertUndoesRemove<T>(s: seq<T>, i: nat)
    requires i < |s|
    ensures Inserted(RemovedAt(s, i), s[i], i) == s
  {
  }

  /** Inserting at the end is appending; at the front, prepending. */
  lemma InsertAtEnds<T>(s: seq<T>, v: T)
    ensures Inserted(s, v, |s|) == s + [v]
    ensures Inserted(s, v, 0) == [v] + s
  {
    assert s[..|s|] == s && s[|s|..] == [];
    assert s[..0] == [] && s[0..] == s;
  }

  /** Removing the first occurrence drops exactly one copy of the value. */
  lemma RemoveFirstOccurrence<T>(s: seq<T>, v: T)
    requires v in s
    ensures multiset(RemovedAt(s, FirstIndex(s, v))) == multiset(s) - multiset{v}
  {
    var i := FirstIndex(s, v);
    assert s == s[..i] + [s[i]] + s[i + 1..];
    assert multiset(s) == multiset(s[..i]) + multiset{v} + multiset(s[i + 1..]);
  }
}
