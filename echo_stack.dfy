/** The echo tag's own ObjectMultistack: its wrappers, top last, and the
    values they hold, as the engine's proofs see them. */
module EchoStacks {
  import opened JavaLang
  import opened ValueWrappers
  import opened Multistack
  import opened EngineSpec

  /** The key the echo tag computes under, and the one it reverses into. */
  const Key := "temp"
  const ReversedKey := "tempObrnuto"

  /** No wrapper occurs twice. */
  ghost predicate Distinct(ws: seq<ValueWrapper>)
    decreases |ws|
  {
    ws == [] || (ws[|ws| - 1] !in ws[..|ws| - 1] && Distinct(ws[..|ws| - 1]))
  }

  /** Taking the last wrapper off leaves distinct wrappers without it. */
  lemma DistinctInit(ws: seq<ValueWrapper>)
    requires Distinct(ws) && ws != []
    ensures Distinct(ws[..|ws| - 1]) && ws[|ws| - 1] !in ws[..|ws| - 1]
  {
  }

  /** The same for the two last wrappers, in either order. */
  lemma DistinctInitTwo(ws: seq<ValueWrapper>)
    requires Distinct(ws) && |ws| >= 2
    ensures ws[|ws| - 1] !in ws[..|ws| - 2] && ws[|ws| - 2] !in ws[..|ws| - 2]
    ensures ws[|ws| - 2] !in ws[..|ws| - 2] + [ws[|ws| - 1]]
  {
    assert ws[..|ws| - 1][..|ws| - 2] == ws[..|ws| - 2];
  }

  lemma SnocInit<T>(s: seq<T>)
    requires s != []
    ensures s[..|s| - 1] + [s[|s| - 1]] == s
  {
  }

  /** The stack named key of t holds the wrappers ws (top last, each once),
      and they hold the values vals. */
  ghost predicate Holds(t: ObjectMultistack, key: string, ws: seq<ValueWrapper>, vals: seq<Obj>)
    reads t, t.Stack(key), ws
  {
    t.Valid() && Chain(t.Stack(key), ws, vals)
  }

  /** The nodes es, top first, hold the wrappers ws, top last, each once, and
      they hold the values vals. */
  ghost predicate Chain(es: seq<MultistackEntry>, ws: seq<ValueWrapper>, vals: seq<Obj>)
    reads es, ws
  {
    |es| == |ws| == |vals| &&
    (forall i :: 0 <= i < |ws| ==> es[i].value == ws[|ws| - 1 - i]) &&
    (forall i :: 0 <= i < |ws| ==> ws[i].value == vals[i]) &&
    Distinct(ws)
  }

  /** The echo tag's stack holds vals in the wrappers ws, and nothing is
      under ReversedKey. */
  ghost predicate Scratch(t: ObjectMultistack, ws: seq<ValueWrapper>, vals: seq<Obj>)
    reads t, t.Stack(Key), ws
  {
    Holds(t, Key, ws, vals) && t.Stack(ReversedKey) == []
  }

  /** push of a wrapper that is not on the stack yet. */
  method ScratchPush(t: ObjectMultistack, key: string, ghost ws: seq<ValueWrapper>, ghost vals: seq<Obj>, w: ValueWrapper)
    requires Holds(t, key, ws, vals) && w !in ws
    modifies t
    ensures Holds(t, key, ws + [w], vals + [w.value])
    ensures forall k :: k != key ==> t.Stack(k) == old(t.Stack(k))
  {
    t.Push(key, w);
    assert (ws + [w])[..|ws|] == ws;
  }

  /** pop: the top wrapper, or IllegalArgumentException on an empty stack. */
  method ScratchPop(t: ObjectMultistack, key: string, ghost ws: seq<ValueWrapper>, ghost vals: seq<Obj>)
    returns (r: Result<ValueWrapper>)
    requires Holds(t, key, ws, vals)
    modifies t
    ensures r.Ok? <==> ws != []
    ensures r.Err? ==> r.fault == NoKey
    ensures r.Ok? ==> r.value == ws[|ws| - 1] && r.value.value == vals[|vals| - 1]
    ensures r.Ok? ==> Holds(t, key, ws[..|ws| - 1], vals[..|vals| - 1])
    ensures forall k :: k != key ==> t.Stack(k) == old(t.Stack(k))
  {
    ghost var before := t.Stack(key);
    r := t.Pop(key);
    if ws != [] {
      assert before[0].value == ws[|ws| - 1];
      assert forall i :: 0 <= i < |ws| - 1 ==> t.Stack(key)[i] == before[i + 1];
    }
  }

  /** push on the echo tag's stack, the reversing stack staying empty. */
  method EchoPush(t: ObjectMultistack, ghost ws: seq<ValueWrapper>, ghost vals: seq<Obj>, w: ValueWrapper)
    requires Scratch(t, ws, vals) && w !in ws
    modifies t
    ensures Scratch(t, ws + [w], vals + [w.value])
  {
    ScratchPush(t, Key, ws, vals, w);
  }

  /** pop from the echo tag's stack, the reversing stack staying empty. */
  method EchoPop(t: ObjectMultistack, ghost ws: seq<ValueWrapper>, ghost vals: seq<Obj>)
    returns (r: Result<ValueWrapper>)
    requires Scratch(t, ws, vals)
    modifies t
    ensures r.Ok? <==> ws != []
    ensures r.Err? ==> r.fault == NoKey
    ensures r.Ok? ==> r.value == ws[|ws| - 1] && r.value.value == vals[|vals| - 1]
    ensures r.Ok? ==> Scratch(t, ws[..|ws| - 1], vals[..|vals| - 1])
  {
    r := ScratchPop(t, Key, ws, vals);
  }

  /** A wrapper just popped goes back on the echo tag's stack. */
  method Restore(t: ObjectMultistack, ghost ws: seq<ValueWrapper>, ghost vals: seq<Obj>, w: ValueWrapper)
    requires ws != [] && |vals| == |ws| && w == ws[|ws| - 1] && w.value == vals[|vals| - 1]
    requires Distinct(ws) && Scratch(t, ws[..|ws| - 1], vals[..|vals| - 1])
    modifies t
    ensures Scratch(t, ws, vals)
  {
    DistinctInit(ws);
    SnocInit(ws);
    SnocInit(vals);
    EchoPush(t, ws[..|ws| - 1], vals[..|vals| - 1], w);
  }

  /** Two wrappers pushed, first a then b. */
  method PushTwo(t: ObjectMultistack, ghost ws: seq<ValueWrapper>, ghost vals: seq<Obj>, a: ValueWrapper, b: ValueWrapper)
    requires Scratch(t, ws, vals) && a !in ws && b !in ws && a != b
    modifies t
    ensures Scratch(t, ws + [a, b], vals + [a.value, b.value])
  {
    EchoPush(t, ws, vals, a);
    EchoPush(t, ws + [a], vals + [a.value], b);
    assert ws + [a] + [b] == ws + [a, b];
    assert vals + [a.value] + [b.value] == vals + [a.value, b.value];
  }

  /** Two pops from the echo tag's stack: the wrapper below the top, and the top. */
  method PopTwo(t: ObjectMultistack, ghost ws: seq<ValueWrapper>, ghost vals: seq<Obj>)
    returns (r: Result<(ValueWrapper, ValueWrapper)>)
    requires Scratch(t, ws, vals)
    modifies t
    ensures r.Ok? <==> |ws| >= 2
    ensures r.Err? ==> r.fault == NoKey
    ensures r.Ok? ==> r.value == (ws[|ws| - 2], ws[|ws| - 1])
    ensures r.Ok? ==> r.value.0.value == vals[|vals| - 2] && r.value.1.value == vals[|vals| - 1]
    ensures r.Ok? ==> Scratch(t, ws[..|ws| - 2], vals[..|vals| - 2])
    ensures r.Ok? ==> r.value.0 != r.value.1 && r.value.0 !in ws[..|ws| - 2] && r.value.1 !in ws[..|ws| - 2]
  {
    var upper := EchoPop(t, ws, vals);
    if upper.Err? {
      return Err(upper.fault);
    }
    var lower := EchoPop(t, ws[..|ws| - 1], vals[..|vals| - 1]);
    if lower.Err? {
      return Err(lower.fault);
    }
    assert ws[..|ws| - 1][..|ws| - 2] == ws[..|ws| - 2];
    assert vals[..|vals| - 1][..|vals| - 2] == vals[..|vals| - 2];
    DistinctInitTwo(ws);
    r := Ok((lower.value, upper.value));
  }

  /** A pop under key that leaves the stack under other as it was. */
  method PopKeeping(t: ObjectMultistack, key: string, ghost ws: seq<ValueWrapper>, ghost vals: seq<Obj>,
                    ghost other: string, ghost os: seq<ValueWrapper>, ghost ovals: seq<Obj>)
    returns (w: ValueWrapper)
    requires Holds(t, key, ws, vals) && Holds(t, other, os, ovals) && ws != [] && key != other
    modifies t
    ensures w == ws[|ws| - 1] && w.value == vals[|vals| - 1]
    ensures Holds(t, key, ws[..|ws| - 1], vals[..|vals| - 1]) && Holds(t, other, os, ovals)
  {
    var r := ScratchPop(t, key, ws, vals);
    w := r.value;
  }

  /** A push under key that leaves the stack under other as it was. */
  method PushKeeping(t: ObjectMultistack, key: string, ghost ws: seq<ValueWrapper>, ghost vals: seq<Obj>, w: ValueWrapper,
                     ghost other: string, ghost os: seq<ValueWrapper>, ghost ovals: seq<Obj>)
    requires Holds(t, key, ws, vals) && Holds(t, other, os, ovals) && w !in ws && key != other
    modifies t
    ensures Holds(t, key, ws + [w], vals + [w.value]) && Holds(t, other, os, ovals)
  {
    ScratchPush(t, key, ws, vals, w);
  }

  /** One step of the first drain loop: the top wrapper of Key popped and
      pushed under ReversedKey. */
  method Transfer(t: ObjectMultistack, ghost ws: seq<ValueWrapper>, ghost vals: seq<Obj>,
                  ghost rs: seq<ValueWrapper>, ghost rvals: seq<Obj>)
    returns (w: ValueWrapper)
    requires Holds(t, Key, ws, vals) && Holds(t, ReversedKey, rs, rvals) && ws != []
    requires forall x :: x in rs ==> x !in ws
    modifies t
    ensures w == ws[|ws| - 1] && w.value == vals[|vals| - 1]
    ensures Holds(t, Key, ws[..|ws| - 1], vals[..|vals| - 1])
    ensures Holds(t, ReversedKey, rs + [w], rvals + [w.value])
    ensures forall x :: x in rs + [w] ==> x !in ws[..|ws| - 1]
  {
    w := PopKeeping(t, Key, ws, vals, ReversedKey, rs, rvals);
    DistinctInit(ws);
    PushKeeping(t, ReversedKey, rs, rvals, w, Key, ws[..|ws| - 1], vals[..|vals| - 1]);
  }

  /** rvals is the top of stack, top first; the next value from below keeps it so. */
  lemma MirrorGrows(stack: seq<Obj>, rvals: seq<Obj>, n: nat, grown: seq<Obj>)
    requires 0 < n <= |stack| && |rvals| == |stack| - n && grown == rvals + [stack[n - 1]]
    requires forall k :: 0 <= k < |rvals| ==> rvals[k] == stack[|stack| - 1 - k]
    ensures forall k :: 0 <= k < |grown| ==> grown[k] == stack[|stack| - 1 - k]
  {
  }

  /** Halfway through the first drain loop: ws, the bottom of stack, still
      under Key, and the rest moved under ReversedKey, top first. */
  ghost predicate Reversing(t: ObjectMultistack, stack: seq<Obj>, ws: seq<ValueWrapper>,
                            rs: seq<ValueWrapper>, rvals: seq<Obj>)
    reads t, t.Stack(Key), t.Stack(ReversedKey), ws, rs
  {
    |ws| <= |stack| && |rvals| == |stack| - |ws| &&
    Holds(t, Key, ws, stack[..|ws|]) && Holds(t, ReversedKey, rs, rvals) &&
    (forall k :: 0 <= k < |rvals| ==> rvals[k] == stack[|stack| - 1 - k]) &&
    (forall x :: x in rs ==> x !in ws)
  }

  /** One turn of the first drain loop. */
  method ReverseOne(t: ObjectMultistack, ghost stack: seq<Obj>, ghost ws: seq<ValueWrapper>,
                    ghost rs: seq<ValueWrapper>, ghost rvals: seq<Obj>)
    returns (ghost ws': seq<ValueWrapper>, ghost rs': seq<ValueWrapper>, ghost rvals': seq<Obj>)
    requires Reversing(t, stack, ws, rs, rvals) && ws != []
    modifies t
    ensures Reversing(t, stack, ws', rs', rvals') && |ws'| == |ws| - 1
  {
    assert stack[..|ws|][..|ws| - 1] == stack[..|ws| - 1];
    var w := Transfer(t, ws, stack[..|ws|], rs, rvals);
    MirrorGrows(stack, rvals, |ws|, rvals + [w.value]);
    ws', rs', rvals' := ws[..|ws| - 1], rs + [w], rvals + [w.value];
  }

  /** The first drain loop: everything popped from Key and pushed under
      ReversedKey, so that the bottom of the echo tag's stack ends on top. */
  method Reverse(t: ObjectMultistack, ghost all: seq<ValueWrapper>, ghost stack: seq<Obj>)
    returns (ghost rs: seq<ValueWrapper>, ghost rvals: seq<Obj>)
    requires Scratch(t, all, stack)
    modifies t
    ensures Mirrored(t, stack, rs, rvals) && |rvals| == |stack|
  {
    ghost var ws := all;
    rs, rvals := [], [];
    assert stack[..|ws|] == stack;
    while !t.IsEmpty(Key)
      invariant Reversing(t, stack, ws, rs, rvals)
      decreases |ws|
    {
      ws, rs, rvals := ReverseOne(t, stack, ws, rs, rvals);
    }
  }

  /** Under ReversedKey: the top of stack, top first, the value that was on
      top of the echo stack at the bottom. */
  ghost predicate Mirrored(t: ObjectMultistack, stack: seq<Obj>, rs: seq<ValueWrapper>, rvals: seq<Obj>)
    reads t, t.Stack(ReversedKey), rs
  {
    Holds(t, ReversedKey, rs, rvals) && |rvals| <= |stack| &&
    (forall k :: 0 <= k < |rvals| ==> rvals[k] == stack[|stack| - 1 - k])
  }

  /** A pop from ReversedKey: the lowest value of stack not written yet. */
  method PopMirror(t: ObjectMultistack, ghost stack: seq<Obj>, ghost rs: seq<ValueWrapper>, ghost rvals: seq<Obj>)
    returns (v: Obj, ghost rs': seq<ValueWrapper>, ghost rvals': seq<Obj>)
    requires Mirrored(t, stack, rs, rvals) && rs != []
    modifies t
    ensures Mirrored(t, stack, rs', rvals') && |rvals'| == |rvals| - 1
    ensures v == stack[|stack| - |rvals|]
  {
    var top := ScratchPop(t, ReversedKey, rs, rvals);
    v := top.value.GetValue();
    rs', rvals' := rs[..|rs| - 1], rvals[..|rvals| - 1];
  }
}
