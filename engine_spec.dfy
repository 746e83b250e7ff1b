/** What SmartScriptEngine does to a RequestContext when it walks a document:
    text is written as is, an echo tag runs a small stack machine and writes
    what is left on the stack, and a FOR loop runs its body while the loop
    variable has not passed the end value. The loop variables are the top
    values of the engine's ObjectMultistack; here they are a map, because a
    node reads them and a loop restores them when it ends. */
module EngineSpec {
  import opened JavaLang
  import opened ValueWrappers
  import opened Elements
  import opened Nodes
  import opened RequestContexts

  /** What ObjectMultistack.pop and peek throw for a name with no stack. */
  const NoKey := IllegalArgument("Key does not exist")

  /** The echo tag's scratch stack (top last) and the request context. */
  datatype Machine = Machine(stack: seq<Obj>, ctx: State)

  /** How far an echo tag got: the machine, and the exception that stopped it. */
  datatype EchoRun = EchoRun(m: Machine, fault: Option<Fault>)

  /** pop on the scratch stack: the rest and the top. */
  function Pop(stack: seq<Obj>): (r: Result<(seq<Obj>, Obj)>)
    ensures r.Ok? <==> stack != []
    ensures r.Ok? ==> r.value.0 + [r.value.1] == stack
    ensures r.Err? ==> r.fault == NoKey
  {
    if stack == [] then Err(NoKey) else Ok((stack[..|stack| - 1], stack[|stack| - 1]))
  }

  /** pop undoes a push. */
  lemma PopPush(stack: seq<Obj>, v: Obj)
    ensures Pop(stack + [v]) == Ok((stack, v))
  {
    assert (stack + [v])[..|stack|] == stack;
  }

  /** Two pops take the top value, then the one below it. */
  lemma PopTwice(stack: seq<Obj>)
    requires |stack| >= 2
    ensures Pop(stack) == Ok((stack[..|stack| - 1], stack[|stack| - 1]))
    ensures Pop(stack[..|stack| - 1]) == Ok((stack[..|stack| - 2], stack[|stack| - 2]))
  {
    assert stack[..|stack| - 1][..|stack| - 2] == stack[..|stack| - 2];
  }

  /** @dup leaves the top value twice; with nothing to pop it is refused. */
  lemma DupTop(m: Machine)
    ensures m.stack == [] ==> DupStep(m) == Err(NoKey)
    ensures m.stack != [] ==> DupStep(m) == Ok(m.(stack := m.stack + [m.stack[|m.stack| - 1]]))
  {
    if m.stack != [] {
      var n := |m.stack|;
      assert m.stack[..n - 1] + [m.stack[n - 1], m.stack[n - 1]] == m.stack + [m.stack[n - 1]];
    }
  }

  /** @swap exchanges the two top values; with fewer than two it is refused. */
  lemma SwapTop(m: Machine)
    ensures |m.stack| < 2 ==> SwapStep(m) == Err(NoKey)
    ensures |m.stack| >= 2 ==> (SwapStep(m) ==
      Ok(m.(stack := m.stack[..|m.stack| - 2] + [m.stack[|m.stack| - 1], m.stack[|m.stack| - 2]])))
  {
    if |m.stack| >= 2 {
      PopTwice(m.stack);
    }
  }

  /** A get takes the name from below the default and leaves the looked-up
      value in their place. */
  lemma GetTop(table: map<string, string>, defaultAsText: bool, m: Machine)
    ensures |m.stack| < 2 ==> GetStep(table, defaultAsText, m) == Err(NoKey)
    ensures |m.stack| >= 2 ==> (GetStep(table, defaultAsText, m) ==
      var r := GetResult(table, defaultAsText, m.stack[|m.stack| - 2], m.stack[|m.stack| - 1]);
      if r.Err? then Err(r.fault) else Ok(m.(stack := m.stack[..|m.stack| - 2] + [r.value])))
  {
    if |m.stack| >= 2 {
      PopTwice(m.stack);
    }
  }

  /** A set takes the name from the top and the value from below it, and
      leaves neither. */
  lemma SetTop(persistent: bool, m: Machine)
    ensures |m.stack| < 2 ==> SetStep(persistent, m) == Err(NoKey)
    ensures |m.stack| >= 2 ==> (SetStep(persistent, m) ==
      var key := ObjToString(m.stack[|m.stack| - 1]);
      var text := ObjToString(m.stack[|m.stack| - 2]);
      if key.Err? then Err(key.fault)
      else if text.Err? then Err(text.fault)
      else Ok(Machine(m.stack[..|m.stack| - 2], Stored(persistent, m.ctx, key.value, text.value))))
  {
    if |m.stack| >= 2 {
      PopTwice(m.stack);
    }
  }

  /** A remove takes the name from the top. */
  lemma DelTop(persistent: bool, m: Machine)
    ensures m.stack == [] ==> DelStep(persistent, m) == Err(NoKey)
    ensures m.stack != [] ==> (DelStep(persistent, m) ==
      var key := ObjToString(m.stack[|m.stack| - 1]);
      if key.Err? then Err(key.fault)
      else Ok(Machine(m.stack[..|m.stack| - 1], Removed(persistent, m.ctx, key.value))))
  {
  }

  /** @setMimeType takes the text from the top. */
  lemma MimeTop(m: Machine)
    ensures m.stack == [] ==> MimeStep(m) == Err(NoKey)
    ensures m.stack != [] ==> (MimeStep(m) ==
      var text := ObjToString(m.stack[|m.stack| - 1]);
      if text.Err? then Err(text.fault)
      else
        var o := Unless(m.ctx, m.ctx.(mimeType := text.value));
        if o.fault.Some? then Err(o.fault.value) else Ok(Machine(m.stack[..|m.stack| - 1], o.state)))
  {
  }

  /** The four operators the engine computes. */
  function ArithOpOf(symbol: string): (r: Option<ArithOp>)
    ensures r.Some? <==> symbol in {"+", "-", "*", "/"}
  {
    if symbol == "+" then Some(Plus)
    else if symbol == "-" then Some(Minus)
    else if symbol == "*" then Some(Times)
    else if symbol == "/" then Some(Quotient)
    else None
  }

  /** An operator pops the right operand, then the left one, and pushes
      left op right; the symbol is checked only after both pops. */
  function OperatorStep(symbol: string, stack: seq<Obj>): Result<seq<Obj>>
  {
    var right :- Pop(stack);
    var left :- Pop(right.0);
    match ArithOpOf(symbol)
    case None => Err(IllegalArgument("Invalid operator!"))
    case Some(op) =>
      var v :- DoCalculation(left.1, right.1, op);
      Ok(left.0 + [v])
  }

  /** An operator takes its right operand from the top and its left from
      below it, and leaves the result in their place. */
  lemma OperatorTop(symbol: string, stack: seq<Obj>)
    ensures |stack| < 2 ==> OperatorStep(symbol, stack) == Err(NoKey)
    ensures |stack| >= 2 ==> (OperatorStep(symbol, stack) ==
      if ArithOpOf(symbol).None? then Err(IllegalArgument("Invalid operator!"))
      else
        var r := DoCalculation(stack[|stack| - 2], stack[|stack| - 1], ArithOpOf(symbol).value);
        if r.Err? then Err(r.fault) else Ok(stack[..|stack| - 2] + [r.value]))
  {
    if |stack| >= 2 {
      PopTwice(stack);
    }
  }

  /** @paramGet, @pparamGet and @tparamGet: pop the default, then the name, and
      push the parameter's value or else the default (as its toString, except
      for @pparamGet, which pushes the default object itself). */
  function GetStep(table: map<string, string>, defaultAsText: bool, m: Machine): Result<Machine>
  {
    var default :- Pop(m.stack);
    var name :- Pop(default.0);
    var value :- GetResult(table, defaultAsText, name.1, default.1);
    Ok(m.(stack := name.0 + [value]))
  }

  /** What a get leaves on the stack: the parameter's value under the name's
      text when there is one, otherwise the default, as its text when
      defaultAsText. */
  function GetResult(table: map<string, string>, defaultAsText: bool, name: Obj, default: Obj): Result<Obj>
  {
    var key :- ObjToString(name);
    if key in table then Ok(JString(table[key]))
    else if defaultAsText then
      var text :- ObjToString(default);
      Ok(JString(text))
    else Ok(default)
  }

  /** @pparamSet and @tparamSet: pop the name, then the value, and store the
      value's text under the name's text. */
  function SetStep(persistent: bool, m: Machine): Result<Machine>
  {
    var name :- Pop(m.stack);
    var value :- Pop(name.0);
    var key :- ObjToString(name.1);
    var text :- ObjToString(value.1);
    Ok(Machine(value.0, Stored(persistent, m.ctx, key, text)))
  }

  /** The context with text stored under key, among the persistent or the
      temporary parameters. */
  function Stored(persistent: bool, ctx: State, key: string, text: string): State
  {
    if persistent then ctx.(persistent := ctx.persistent[key := text])
    else ctx.(temporary := ctx.temporary[key := text])
  }

  /** The context without key among the persistent or the temporary
      parameters. */
  function Removed(persistent: bool, ctx: State, key: string): State
  {
    if persistent then ctx.(persistent := ctx.persistent - {key})
    else ctx.(temporary := ctx.temporary - {key})
  }

  /** @pparamDel and @tparamDel: pop a name and remove that parameter. */
  function DelStep(persistent: bool, m: Machine): Result<Machine>
  {
    var name :- Pop(m.stack);
    var key :- ObjToString(name.1);
    Ok(Machine(name.0, Removed(persistent, m.ctx, key)))
  }

  /** @sin: the sine of an Integer or Double, which the model does not
      evaluate (FloatingPoint); any other value is refused. */
  function SinStep(m: Machine): Result<Machine>
  {
    var x :- Pop(m.stack);
    if x.1.JInteger? || x.1.JDouble? then Err(FloatingPoint)
    else Err(IllegalArgument("Invalid argument for sin function!"))
  }

  /** @decfmt: pop the format, then the number. DecimalFormat refuses a null
      pattern and a number that is not an Integer or Double; what it makes of
      the rest is not evaluated (FloatingPoint). */
  function DecfmtStep(m: Machine): Result<Machine>
  {
    var format :- Pop(m.stack);
    var number :- Pop(format.0);
    if format.1.Null? || !(number.1.JInteger? || number.1.JDouble?) then
      Err(IllegalArgument("Invalid argument for decfmt function!"))
    else Err(FloatingPoint)
  }

  /** @dup: the top value twice. */
  function DupStep(m: Machine): Result<Machine>
  {
    var x :- Pop(m.stack);
    Ok(m.(stack := x.0 + [x.1, x.1]))
  }

  /** @swap: the two top values exchanged. */
  function SwapStep(m: Machine): Result<Machine>
  {
    var a :- Pop(m.stack);
    var b :- Pop(a.0);
    Ok(m.(stack := b.0 + [a.1, b.1]))
  }

  /** @setMimeType: pop a value and make its text the mime type. */
  function MimeStep(m: Machine): Result<Machine>
  {
    var x :- Pop(m.stack);
    var text :- ObjToString(x.1);
    var o := Unless(m.ctx, m.ctx.(mimeType := text));
    if o.fault.Some? then Err(o.fault.value) else Ok(Machine(x.0, o.state))
  }

  /** One function call of an echo tag, by its name (which starts with '@'). */
  function FunctionStep(name: string, params: map<string, string>, m: Machine): Result<Machine>
  {
    if name == "@sin" then SinStep(m)
    else if name == "@decfmt" then DecfmtStep(m)
    else if name == "@dup" then DupStep(m)
    else if name == "@swap" then SwapStep(m)
    else if name == "@setMimeType" then MimeStep(m)
    else if name == "@paramGet" then GetStep(params, true, m)
    else if name == "@pparamGet" then GetStep(m.ctx.persistent, false, m)
    else if name == "@tparamGet" then GetStep(m.ctx.temporary, true, m)
    else if name == "@pparamSet" then SetStep(true, m)
    else if name == "@tparamSet" then SetStep(false, m)
    else if name == "@pparamDel" then DelStep(true, m)
    else if name == "@tparamDel" then DelStep(false, m)
    else Err(IllegalArgument("Function " + name + " not defined"))
  }

  /** One element of an echo tag. Constants push their text, a variable pushes
      its current value, operators and functions work on the stack. */
  function EchoStep(e: Element, env: map<string, Obj>, params: map<string, string>, m: Machine): Result<Machine>
  {
    match e
    case ElementString(_) => Ok(m.(stack := m.stack + [JString(AsText(e))]))
    case ElementConstantInteger(_) => Ok(m.(stack := m.stack + [JString(AsText(e))]))
    case ElementConstantDouble(_) => Ok(m.(stack := m.stack + [JString(AsText(e))]))
    case ElementVariable(name) => if name in env then Ok(m.(stack := m.stack + [env[name]])) else Err(NoKey)
    case ElementOperator(symbol) =>
      var s :- OperatorStep(symbol, m.stack);
      Ok(m.(stack := s))
    case ElementFunction(name) => FunctionStep(name, params, m)
  }

  /** The elements run in order; the first exception stops the tag, and what
      the elements before it did to the context stays. */
  function RunElements(es: seq<Element>, env: map<string, Obj>, params: map<string, string>, m: Machine): EchoRun
    decreases |es|
  {
    if es == [] then EchoRun(m, None)
    else
      var prev := RunElements(es[..|es| - 1], env, params, m);
      if prev.fault.Some? then prev
      else match EchoStep(es[|es| - 1], env, params, prev.m)
        case Ok(next) => EchoRun(next, None)
        case Err(f) => EchoRun(prev.m, Some(f))
  }

  /** The values left on the stack written with write(String), bottom first. */
  function WriteAll(values: seq<Obj>, ctx: State): Outcome
    decreases |values|
  {
    if values == [] then Outcome(ctx, None)
    else
      var prev := WriteAll(values[..|values| - 1], ctx);
      if prev.fault.Some? then prev
      else match ObjToString(values[|values| - 1])
        case Err(f) => Outcome(prev.state, Some(f))
        case Ok(text) => Apply(prev.state, WriteText(text))
  }

  /** visitEchoNode. */
  function ExecEcho(es: seq<Element>, env: map<string, Obj>, params: map<string, string>, ctx: State): Outcome
  {
    var r := RunElements(es, env, params, Machine([], ctx));
    if r.fault.Some? then Outcome(r.m.ctx, r.fault) else WriteAll(r.m.stack, r.m.ctx)
  }

  /** visitNode: a node run against the loop variables env. A FOR loop may run
      at most fuel iterations; one that would run more ends in FuelExhausted. */
  function ExecNode(n: Node, env: map<string, Obj>, params: map<string, string>, ctx: State, fuel: nat): Outcome
    decreases n, 2
  {
    match n
    case DocumentNode(children) => ExecChildren(children, env, params, ctx, fuel)
    case TextNode(text) => Apply(ctx, WriteText(text))
    case EchoNode(elements) => ExecEcho(elements, env, params, ctx)
    case ForLoopNode(variable, start, end, step, children) =>
      if step.None? then Outcome(ctx, Some(NullPointer))
      else
        ForLoop(variable, JString(AsText(start)), JString(AsText(end)), JString(AsText(step.value)),
                children, env, params, ctx, fuel, fuel)
  }

  /** The children in index order, stopping at the first exception. */
  function ExecChildren(children: seq<Node>, env: map<string, Obj>, params: map<string, string>, ctx: State, fuel: nat): Outcome
    decreases children, 3
  {
    if children == [] then Outcome(ctx, None)
    else
      var prev := ExecChildren(children[..|children| - 1], env, params, ctx, fuel);
      if prev.fault.Some? then prev
      else ExecNode(children[|children| - 1], env, params, prev.state, fuel)
  }

  /** The while(true) loop of visitForLoopNode from a current value on: stop
      once it compares greater than the end, otherwise run the body with the
      variable bound to it and add the step. iterations is what is left of the
      bound. */
  function ForLoop(variable: string, current: Obj, end: Obj, step: Obj, body: seq<Node>,
                   env: map<string, Obj>, params: map<string, string>, ctx: State,
                   fuel: nat, iterations: nat): Outcome
    decreases body, 4, iterations
  {
    match NumCompare(current, end)
    case Err(f) => Outcome(ctx, Some(f))
    case Ok(c) =>
      if c > 0 then Outcome(ctx, None)
      else if iterations == 0 then Outcome(ctx, Some(FuelExhausted))
      else
        var o := ExecChildren(body, env[variable := current], params, ctx, fuel);
        if o.fault.Some? then o
        else match DoCalculation(current, step, Plus)
          case Err(f) => Outcome(o.state, Some(f))
          case Ok(next) => ForLoop(variable, next, end, step, body, env, params, o.state, fuel, iterations - 1)
  }

  /** Once an element has failed, the rest of the tag does not run. */
  lemma {:induction false} ElementsFaultFinal(es: seq<Element>, j: nat, env: map<string, Obj>, params: map<string, string>, m: Machine)
    requires j <= |es|
    requires RunElements(es[..j], env, params, m).fault.Some?
    ensures RunElements(es, env, params, m) == RunElements(es[..j], env, params, m)
    decreases |es|
  {
    if j < |es| {
      assert es[..|es| - 1][..j] == es[..j];
      ElementsFaultFinal(es[..|es| - 1], j, env, params, m);
    } else {
      assert es[..j] == es;
    }
  }

  /** Writing one more value of a prefix: the value at j is written after
      the ones below it, unless one of those failed. */
  lemma WritePrefixStep(values: seq<Obj>, j: nat, ctx: State)
    requires j < |values|
    ensures WriteAll(values[..j + 1], ctx) ==
      var prev := WriteAll(values[..j], ctx);
      if prev.fault.Some? then prev
      else match ObjToString(values[j])
        case Err(f) => Outcome(prev.state, Some(f))
        case Ok(text) => Apply(prev.state, WriteText(text))
  {
    assert values[..j + 1][..j] == values[..j];
  }

  /** Once a write has failed, the later values are not written. */
  lemma {:induction false} WritesFaultFinal(values: seq<Obj>, j: nat, ctx: State)
    requires j <= |values|
    requires WriteAll(values[..j], ctx).fault.Some?
    ensures WriteAll(values, ctx) == WriteAll(values[..j], ctx)
    decreases |values|
  {
    if j < |values| {
      assert values[..|values| - 1][..j] == values[..j];
      WritesFaultFinal(values[..|values| - 1], j, ctx);
    } else {
      assert values[..j] == values;
    }
  }

  /** Once a child has thrown, its later siblings do not run. */
  lemma {:induction false} ChildrenFaultFinal(children: seq<Node>, j: nat, env: map<string, Obj>, params: map<string, string>, ctx: State, fuel: nat)
    requires j <= |children|
    requires ExecChildren(children[..j], env, params, ctx, fuel).fault.Some?
    ensures ExecChildren(children, env, params, ctx, fuel) == ExecChildren(children[..j], env, params, ctx, fuel)
    decreases |children|
  {
    if j < |children| {
      assert children[..|children| - 1][..j] == children[..j];
      ChildrenFaultFinal(children[..|children| - 1], j, env, params, ctx, fuel);
    } else {
      assert children[..j] == children;
    }
  }
}
