/** What SmartScriptEngine's walk of a document promises: children run in
    order, text goes out unchanged, an echo tag's values are written oldest
    first, operators take their right operand from the top, a FOR loop's
    bounds are the texts of its elements, and a loop neither sees nor
    disturbs an outer binding of its variable. */
module EngineProperties {
  import opened JavaLang
  import opened ValueWrappers
  import opened Elements
  import opened Nodes
  import opened RequestContexts
  import opened RequestContextProperties
  import opened EngineSpec

  /** A context whose header, once out, went out with a charset: every
      context a write has touched is like this. */
  predicate Coherent(s: State)
  {
    s.headerGenerated ==> s.charset.Some?
  }

  /** One TextNode per string, in order. */
  function TextNodes(ts: seq<string>): seq<Node>
    decreases |ts|
  {
    if ts == [] then [] else TextNodes(ts[..|ts| - 1]) + [TextNode(ts[|ts| - 1])]
  }

  /** One write(String) per string, in order. */
  function TextWrites(ts: seq<string>): seq<WriteCall>
    decreases |ts|
  {
    if ts == [] then [] else TextWrites(ts[..|ts| - 1]) + [WriteText(ts[|ts| - 1])]
  }

  /** The Strings holding the texts, in order. */
  function Strings(ts: seq<string>): (r: seq<Obj>)
    ensures |r| == |ts|
    decreases |ts|
  {
    if ts == [] then [] else Strings(ts[..|ts| - 1]) + [JString(ts[|ts| - 1])]
  }

  /** The asText of each element, in order. */
  function ElementTexts(es: seq<Element>): (r: seq<string>)
    ensures |r| == |es|
    decreases |es|
  {
    if es == [] then [] else ElementTexts(es[..|es| - 1]) + [AsText(es[|es| - 1])]
  }

  predicate IsConstant(e: Element)
  {
    e.ElementString? || e.ElementConstantInteger? || e.ElementConstantDouble?
  }

  // ------------------------------------------------------------ children and text

  /** A child list split in two runs as the first part, then the second from
      the context the first left, unless the first threw. */
  lemma {:induction false} ChildrenAppend(a: seq<Node>, b: seq<Node>, env: map<string, Obj>,
                                          params: map<string, string>, ctx: State, fuel: nat)
    ensures ExecChildren(a + b, env, params, ctx, fuel) ==
      var o := ExecChildren(a, env, params, ctx, fuel);
      if o.fault.Some? then o else ExecChildren(b, env, params, o.state, fuel)
    decreases |b|
  {
    if b == [] {
      assert a + b == a;
    } else {
      var init := b[..|b| - 1];
      assert (a + b)[..|a + b| - 1] == a + init;
      assert (a + b)[|a + b| - 1] == b[|b| - 1];
      ChildrenAppend(a, init, env, params, ctx, fuel);
    }
  }

  /** A write appended to a run of writes happens last. */
  lemma {:induction false} ApplyAllSnoc(s: State, ws: seq<WriteCall>, w: WriteCall)
    ensures ApplyAll(s, ws + [w]) == Apply(ApplyAll(s, ws), w).state
    decreases |ws|
  {
    if ws == [] {
      assert ([] + [w])[1..] == [];
    } else {
      assert (ws + [w])[0] == ws[0];
      assert (ws + [w])[1..] == ws[1..] + [w];
      ApplyAllSnoc(Apply(s, ws[0]).state, ws[1..], w);
    }
  }

  /** visitTextNode writes the text unchanged, after the header if nothing
      was written before, and throws nothing. */
  lemma TextWrittenVerbatim(text: string, env: map<string, Obj>, params: map<string, string>, ctx: State, fuel: nat)
    requires Coherent(ctx)
    ensures var o := ExecNode(TextNode(text), env, params, ctx, fuel);
      o.fault.None? && Coherent(o.state) &&
      o.state.output == EmitHeader(ctx).output + [Encoded(text, EmitHeader(ctx).charset.value)]
  {
  }

  /** A document of text nodes writes the texts one after the other, in
      child order, and throws nothing. */
  lemma {:induction false} TextsWrittenInOrder(ts: seq<string>, env: map<string, Obj>, params: map<string, string>,
                                               ctx: State, fuel: nat)
    requires Coherent(ctx)
    ensures ExecChildren(TextNodes(ts), env, params, ctx, fuel) == Outcome(ApplyAll(ctx, TextWrites(ts)), None)
    ensures ExecNode(DocumentNode(TextNodes(ts)), env, params, ctx, fuel) == Outcome(ApplyAll(ctx, TextWrites(ts)), None)
    decreases |ts|
  {
    if ts != [] {
      var init := ts[..|ts| - 1];
      TextsWrittenInOrder(init, env, params, ctx, fuel);
      var nodes := TextNodes(ts);
      assert nodes[..|nodes| - 1] == TextNodes(init);
      WritesKeepSettings(ctx, TextWrites(init));
      ApplyAllSnoc(ctx, TextWrites(init), WriteText(ts[|ts| - 1]));
    }
  }

  // ------------------------------------------------------------------ echo tags

  /** The last element runs on the machine the others left, unless one of
      them threw. */
  lemma RunSnoc(es: seq<Element>, e: Element, env: map<string, Obj>, params: map<string, string>, m: Machine)
    ensures RunElements(es + [e], env, params, m) ==
      var prev := RunElements(es, env, params, m);
      if prev.fault.Some? then prev
      else match EchoStep(e, env, params, prev.m)
        case Ok(next) => EchoRun(next, None)
        case Err(f) => EchoRun(prev.m, Some(f))
  {
    assert (es + [e])[..|es|] == es;
  }

  /** The value on top is written last. */
  lemma WriteSnoc(vs: seq<Obj>, v: Obj, ctx: State)
    ensures WriteAll(vs + [v], ctx) ==
      var prev := WriteAll(vs, ctx);
      if prev.fault.Some? then prev
      else match ObjToString(v)
        case Err(f) => Outcome(prev.state, Some(f))
        case Ok(text) => Apply(prev.state, WriteText(text))
  {
    assert (vs + [v])[..|vs|] == vs;
  }

  /** Constants push their texts as Strings, in element order, and the
      context is not touched. */
  lemma {:induction false} ConstantsPushedInOrder(es: seq<Element>, env: map<string, Obj>, params: map<string, string>, m: Machine)
    requires forall i :: 0 <= i < |es| ==> IsConstant(es[i])
    ensures RunElements(es, env, params, m) == EchoRun(m.(stack := m.stack + Strings(ElementTexts(es))), None)
    decreases |es|
  {
    if es != [] {
      var init := es[..|es| - 1];
      ConstantsPushedInOrder(init, env, params, m);
      RunSnoc(init, es[|es| - 1], env, params, m);
      assert init + [es[|es| - 1]] == es;
      var ts := ElementTexts(es);
      assert ts[..|ts| - 1] == ElementTexts(init);
      assert m.stack + Strings(ElementTexts(es)) == m.stack + Strings(ElementTexts(init)) + [JString(AsText(es[|es| - 1]))];
    }
  }

  /** Strings left on the scratch stack are written bottom first. */
  lemma {:induction false} StringsWrittenInOrder(ts: seq<string>, ctx: State)
    requires Coherent(ctx)
    ensures WriteAll(Strings(ts), ctx) == Outcome(ApplyAll(ctx, TextWrites(ts)), None)
    decreases |ts|
  {
    if ts != [] {
      var init := ts[..|ts| - 1];
      StringsWrittenInOrder(init, ctx);
      var vs := Strings(ts);
      assert vs[..|vs| - 1] == Strings(init);
      WritesKeepSettings(ctx, TextWrites(init));
      ApplyAllSnoc(ctx, TextWrites(init), WriteText(ts[|ts| - 1]));
    }
  }

  /** An echo tag of constants writes their texts in element order. */
  lemma EchoOfConstants(es: seq<Element>, env: map<string, Obj>, params: map<string, string>, ctx: State)
    requires forall i :: 0 <= i < |es| ==> IsConstant(es[i])
    requires Coherent(ctx)
    ensures ExecEcho(es, env, params, ctx) == Outcome(ApplyAll(ctx, TextWrites(ElementTexts(es))), None)
  {
    ConstantsPushedInOrder(es, env, params, Machine([], ctx));
    assert [] + Strings(ElementTexts(es)) == Strings(ElementTexts(es));
    StringsWrittenInOrder(ElementTexts(es), ctx);
  }

  /** `{$= a b op $}` with two int constants writes left op right, computed
      in wrapping int arithmetic: the top of the stack is the right operand. */
  lemma EchoIntOperator(a: Int32, b: Int32, symbol: string, env: map<string, Obj>, params: map<string, string>, ctx: State)
    requires ArithOpOf(symbol).Some? && (ArithOpOf(symbol).value == Quotient ==> b != 0)
    ensures ExecEcho([ElementConstantInteger(a), ElementConstantInteger(b), ElementOperator(symbol)], env, params, ctx)
         == Apply(ctx, WriteText(IntToString(Wrap32(ExactIntOp(ArithOpOf(symbol).value, a, b)))))
  {
    var op := ArithOpOf(symbol).value;
    var sa, sb := JString(IntToString(a)), JString(IntToString(b));
    var v := JInteger(Wrap32(ExactIntOp(op, a, b)));
    IntTextsCalculate(a, b, op);
    PushTwoIntegers(a, b, env, params, ctx);
    OperatorTop(symbol, [sa, sb]);
    RunSnoc([ElementConstantInteger(a), ElementConstantInteger(b)], ElementOperator(symbol), env, params, Machine([], ctx));
    assert [ElementConstantInteger(a), ElementConstantInteger(b)] + [ElementOperator(symbol)]
        == [ElementConstantInteger(a), ElementConstantInteger(b), ElementOperator(symbol)];
    WriteSnoc([], v, ctx);
    assert [] + [v] == [v];
  }

  /** Two int texts compute as the ints they spell. */
  lemma IntTextsCalculate(a: Int32, b: Int32, op: ArithOp)
    requires op == Quotient ==> b != 0
    ensures DoCalculation(JString(IntToString(a)), JString(IntToString(b)), op) == Ok(JInteger(Wrap32(ExactIntOp(op, a, b))))
  {
    IntegerTextActsAsInteger(JString(IntToString(a)), b, op);
    IntegerTextActsAsInteger(JInteger(b), a, op);
  }

  /** Two int constants leave their texts on the stack, the second on top. */
  lemma PushTwoIntegers(a: Int32, b: Int32, env: map<string, Obj>, params: map<string, string>, ctx: State)
    ensures RunElements([ElementConstantInteger(a), ElementConstantInteger(b)], env, params, Machine([], ctx))
         == EchoRun(Machine([JString(IntToString(a)), JString(IntToString(b))], ctx), None)
  {
    RunSnoc([], ElementConstantInteger(a), env, params, Machine([], ctx));
    assert [] + [ElementConstantInteger(a)] == [ElementConstantInteger(a)];
    RunSnoc([ElementConstantInteger(a)], ElementConstantInteger(b), env, params, Machine([], ctx));
    assert [ElementConstantInteger(a)] + [ElementConstantInteger(b)] == [ElementConstantInteger(a), ElementConstantInteger(b)];
  }

  /** `{$= 1 2 + $}` writes 3, and `{$= 5 3 - $}` writes 2, not -2. */
  lemma EchoArithmeticExamples(env: map<string, Obj>, params: map<string, string>, ctx: State)
    ensures ExecEcho([ElementConstantInteger(1), ElementConstantInteger(2), ElementOperator("+")], env, params, ctx)
         == Apply(ctx, WriteText("3"))
    ensures ExecEcho([ElementConstantInteger(5), ElementConstantInteger(3), ElementOperator("-")], env, params, ctx)
         == Apply(ctx, WriteText("2"))
  {
    EchoIntOperator(1, 2, "+", env, params, ctx);
    EchoIntOperator(5, 3, "-", env, params, ctx);
  }

  /** Any other operator symbol, `^` included, throws once both operands are
      popped; nothing is written. */
  lemma EchoPowerRejected(a: Int32, b: Int32, env: map<string, Obj>, params: map<string, string>, ctx: State)
    ensures ExecEcho([ElementConstantInteger(a), ElementConstantInteger(b), ElementOperator("^")], env, params, ctx)
         == Outcome(ctx, Some(IllegalArgument("Invalid operator!")))
  {
    var sa, sb := JString(IntToString(a)), JString(IntToString(b));
    PushTwoIntegers(a, b, env, params, ctx);
    OperatorTop("^", [sa, sb]);
    RunSnoc([ElementConstantInteger(a), ElementConstantInteger(b)], ElementOperator("^"), env, params, Machine([], ctx));
    assert [ElementConstantInteger(a), ElementConstantInteger(b)] + [ElementOperator("^")]
        == [ElementConstantInteger(a), ElementConstantInteger(b), ElementOperator("^")];
  }

  /** A function name the engine does not know throws, and nothing is written. */
  lemma UnknownFunctionRejected(name: string, env: map<string, Obj>, params: map<string, string>, ctx: State)
    requires name !in {"@sin", "@decfmt", "@dup", "@swap", "@setMimeType", "@paramGet", "@pparamGet",
                       "@tparamGet", "@pparamSet", "@tparamSet", "@pparamDel", "@tparamDel"}
    ensures ExecEcho([ElementFunction(name)], env, params, ctx)
         == Outcome(ctx, Some(IllegalArgument("Function " + name + " not defined")))
  {
    RunSnoc([], ElementFunction(name), env, params, Machine([], ctx));
    assert [] + [ElementFunction(name)] == [ElementFunction(name)];
  }

  /** A variable writes the current value of its loop; one with no loop
      throws the multistack's exception. */
  lemma EchoVariable(name: string, env: map<string, Obj>, params: map<string, string>, ctx: State)
    ensures name !in env ==> ExecEcho([ElementVariable(name)], env, params, ctx) == Outcome(ctx, Some(NoKey))
    ensures name in env ==>
      ExecEcho([ElementVariable(name)], env, params, ctx) ==
        match ObjToString(env[name])
        case Ok(text) => Apply(ctx, WriteText(text))
        case Err(f) => Outcome(ctx, Some(f))
  {
    RunSnoc([], ElementVariable(name), env, params, Machine([], ctx));
    assert [] + [ElementVariable(name)] == [ElementVariable(name)];
    if name in env {
      WriteSnoc([], env[name], ctx);
      assert [] + [env[name]] == [env[name]];
    }
  }

  // ------------------------------------------------------------------ FOR loops

  /** A FOR loop with no step throws NullPointerException before anything
      is pushed or written. */
  lemma ForWithoutStepThrows(variable: string, start: Element, end: Element, body: seq<Node>,
                             env: map<string, Obj>, params: map<string, string>, ctx: State, fuel: nat)
    ensures ExecNode(ForLoopNode(variable, start, end, None, body), env, params, ctx, fuel)
         == Outcome(ctx, Some(NullPointer))
  {
  }

  /** The text of an int constant converts back to that int. */
  lemma IntegerConstantConverts(e: Element)
    requires e.ElementConstantInteger?
    ensures ConvertType(JString(AsText(e))) == Ok(IntNum(e.intValue))
  {
    assert !LooksLikeDouble(AsText(e));
  }

  /** A FOR loop whose int start is past its int end runs its body no time
      and writes nothing. */
  lemma ForPastEndRunsNothing(variable: string, start: Element, end: Element, step: Element, body: seq<Node>,
                              env: map<string, Obj>, params: map<string, string>, ctx: State, fuel: nat)
    requires start.ElementConstantInteger? && end.ElementConstantInteger? && start.intValue > end.intValue
    ensures ExecNode(ForLoopNode(variable, start, end, Some(step), body), env, params, ctx, fuel) == Outcome(ctx, None)
  {
    IntegerConstantConverts(start);
    IntegerConstantConverts(end);
  }

  /** The bounds are the elements' texts: a variable as the start is its
      name, which is not a number, whatever the variable is bound to. */
  lemma ForBoundIsText(variable: string, end: Element, step: Element, body: seq<Node>,
                       env: map<string, Obj>, params: map<string, string>, ctx: State, fuel: nat)
    ensures ExecNode(ForLoopNode(variable, ElementVariable("x"), end, Some(step), body), env, params, ctx, fuel)
         == Outcome(ctx, Some(Runtime("Tried to parse string to int, but it was not an int")))
  {
    assert !LooksLikeDouble("x");
    assert !AllDigits("x") by { assert !IsDigit("x"[0]); }
  }

  /** The body sees the loop's own value of the variable, so an outer
      binding of the same name changes nothing in the loop. */
  lemma {:induction false} ForIgnoresOuterBinding(variable: string, current: Obj, end: Obj, step: Obj, body: seq<Node>,
                                                  env: map<string, Obj>, outer: Obj, params: map<string, string>,
                                                  ctx: State, fuel: nat, iterations: nat)
    ensures ForLoop(variable, current, end, step, body, env, params, ctx, fuel, iterations)
         == ForLoop(variable, current, end, step, body, env[variable := outer], params, ctx, fuel, iterations)
    decreases iterations
  {
    var o := ExecChildren(body, env[variable := current], params, ctx, fuel);
    var next := DoCalculation(current, step, Plus);
    if NumCompare(current, end).Ok? && NumCompare(current, end).value <= 0 && iterations > 0
       && o.fault.None? && next.Ok? {
      ForTurnShadowed(variable, current, end, step, body, env, outer, params, ctx, fuel, iterations);
      ForIgnoresOuterBinding(variable, next.value, end, step, body, env, outer, params, o.state, fuel, iterations - 1);
    } else {
      ForEndShadowed(variable, current, end, step, body, env, outer, params, ctx, fuel, iterations);
    }
  }

  /** A turn that runs the body and the step goes on the same way under
      an outer binding of the variable. */
  lemma ForTurnShadowed(variable: string, current: Obj, end: Obj, step: Obj, body: seq<Node>,
                        env: map<string, Obj>, outer: Obj, params: map<string, string>,
                        ctx: State, fuel: nat, iterations: nat)
    requires NumCompare(current, end).Ok? && NumCompare(current, end).value <= 0 && iterations > 0
    requires ExecChildren(body, env[variable := current], params, ctx, fuel).fault.None?
    requires DoCalculation(current, step, Plus).Ok?
    ensures var o := ExecChildren(body, env[variable := current], params, ctx, fuel);
      var next := DoCalculation(current, step, Plus).value;
      ForLoop(variable, current, end, step, body, env, params, ctx, fuel, iterations)
        == ForLoop(variable, next, end, step, body, env, params, o.state, fuel, iterations - 1) &&
      ForLoop(variable, current, end, step, body, env[variable := outer], params, ctx, fuel, iterations)
        == ForLoop(variable, next, end, step, body, env[variable := outer], params, o.state, fuel, iterations - 1)
  {
    assert env[variable := outer][variable := current] == env[variable := current];
  }

  /** A turn that stops the loop stops it the same way under an outer
      binding of the variable. */
  lemma ForEndShadowed(variable: string, current: Obj, end: Obj, step: Obj, body: seq<Node>,
                       env: map<string, Obj>, outer: Obj, params: map<string, string>,
                       ctx: State, fuel: nat, iterations: nat)
    requires !(NumCompare(current, end).Ok? && NumCompare(current, end).value <= 0 && iterations > 0
               && ExecChildren(body, env[variable := current], params, ctx, fuel).fault.None?
               && DoCalculation(current, step, Plus).Ok?)
    ensures ForLoop(variable, current, end, step, body, env, params, ctx, fuel, iterations)
         == ForLoop(variable, current, end, step, body, env[variable := outer], params, ctx, fuel, iterations)
  {
    assert env[variable := outer][variable := current] == env[variable := current];
  }

  /** `{$FOR i 1 2 1$}` runs its body twice: first with i bound to the
      String "1", the start's text, then to the Integer 2 the step's
      addition made; 3 is past the end, and the loop stops. */
  lemma ForOneToTwo(body: seq<Node>, env: map<string, Obj>, params: map<string, string>, ctx: State, fuel: nat)
    requires fuel >= 2
    ensures ExecNode(ForLoopNode("i", ElementConstantInteger(1), ElementConstantInteger(2), Some(ElementConstantInteger(1)),
                                 body), env, params, ctx, fuel) ==
      var first := ExecChildren(body, env["i" := JString("1")], params, ctx, fuel);
      if first.fault.Some? then first
      else
        var second := ExecChildren(body, env["i" := JInteger(2)], params, first.state, fuel);
        if second.fault.Some? then second else Outcome(second.state, None)
  {
    OneToTwoArithmetic();
    var one, two := JString("1"), JString("2");
    assert ExecNode(ForLoopNode("i", ElementConstantInteger(1), ElementConstantInteger(2), Some(ElementConstantInteger(1)),
                                body), env, params, ctx, fuel)
        == ForLoop("i", one, two, one, body, env, params, ctx, fuel, fuel);
    var first := ExecChildren(body, env["i" := one], params, ctx, fuel);
    if first.fault.None? {
      assert ForLoop("i", one, two, one, body, env, params, ctx, fuel, fuel)
          == ForLoop("i", JInteger(2), two, one, body, env, params, first.state, fuel, fuel - 1);
      var second := ExecChildren(body, env["i" := JInteger(2)], params, first.state, fuel);
      if second.fault.None? {
        assert ForLoop("i", JInteger(2), two, one, body, env, params, first.state, fuel, fuel - 1)
            == ForLoop("i", JInteger(3), two, one, body, env, params, second.state, fuel, fuel - 2);
      }
    }
  }

  /** The comparisons and additions of `{$FOR i 1 2 1$}`. */
  lemma OneToTwoArithmetic()
    ensures AsText(ElementConstantInteger(1)) == "1" && AsText(ElementConstantInteger(2)) == "2"
    ensures NumCompare(JString("1"), JString("2")) == Ok(-1)
    ensures DoCalculation(JString("1"), JString("1"), Plus) == Ok(JInteger(2))
    ensures NumCompare(JInteger(2), JString("2")) == Ok(0)
    ensures DoCalculation(JInteger(2), JString("1"), Plus) == Ok(JInteger(3))
    ensures NumCompare(JInteger(3), JString("2")) == Ok(1)
  {
    assert IntToString(1) == "1" && IntToString(2) == "2";
    IntegerTextActsAsInteger(JString("1"), 2, Plus);
    IntegerTextActsAsInteger(JString("1"), 1, Plus);
    IntegerTextActsAsInteger(JInteger(1), 1, Plus);
    IntegerTextActsAsInteger(JInteger(2), 1, Plus);
    IntegerTextActsAsInteger(JInteger(2), 2, Plus);
    IntegerTextActsAsInteger(JInteger(3), 2, Plus);
  }

  /** With `{$= i $}` as the body, that loop writes 1, then 2. */
  lemma CountToTwo(env: map<string, Obj>, params: map<string, string>, ctx: State, fuel: nat)
    requires Coherent(ctx) && fuel >= 2
    ensures ExecNode(ForLoopNode("i", ElementConstantInteger(1), ElementConstantInteger(2), Some(ElementConstantInteger(1)),
                                 [EchoNode([ElementVariable("i")])]), env, params, ctx, fuel)
         == Outcome(ApplyAll(ctx, [WriteText("1"), WriteText("2")]), None)
  {
    var body := [EchoNode([ElementVariable("i")])];
    ForOneToTwo(body, env, params, ctx, fuel);
    assert IntToString(2) == "2";
    var c1 := Apply(ctx, WriteText("1")).state;
    BodyWritesVariable(JString("1"), body, env, params, ctx, fuel);
    ApplyStep(ctx, WriteText("1"));
    BodyWritesVariable(JInteger(2), body, env, params, c1, fuel);
    ApplyAllSnoc(ctx, [WriteText("1")], WriteText("2"));
    assert [WriteText("1")] + [WriteText("2")] == [WriteText("1"), WriteText("2")];
  }

  /** The body `{$= i $}` writes the text of i's value. */
  lemma BodyWritesVariable(current: Obj, body: seq<Node>, env: map<string, Obj>, params: map<string, string>,
                           ctx: State, fuel: nat)
    requires body == [EchoNode([ElementVariable("i")])] && Coherent(ctx) && ObjToString(current).Ok?
    ensures ExecChildren(body, env["i" := current], params, ctx, fuel)
         == Outcome(Apply(ctx, WriteText(ObjToString(current).value)).state, None)
  {
    EchoVariable("i", env["i" := current], params, ctx);
    assert body[..0] == [];
  }
}
