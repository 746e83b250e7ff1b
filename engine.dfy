/** SmartScriptEngine: walks a document tree and writes its output to a
    RequestContext. Loop variables live on the engine's ObjectMultistack; each
    echo tag computes on a fresh ObjectMultistack of its own. Every visit is
    proved to do what EngineSpec says the node does. */
module Engine {
  import opened JavaLang
  import opened ValueWrappers
  import opened Elements
  import opened Nodes
  import opened RequestContexts
  import opened Multistack
  import opened EngineSpec
  import opened EchoStacks

  /** Which parameter map a get, set or remove works on. */
  datatype Scope = Request | Persistent | Temporary

  class SmartScriptEngine {
    const documentNode: Node
    const requestContext: RequestContext
    const multistack: ObjectMultistack

    constructor (documentNode: Node, requestContext: RequestContext)
      requires documentNode.DocumentNode?
      ensures this.documentNode == documentNode && this.requestContext == requestContext
      ensures fresh(multistack) && multistack.entries == map[] && multistack.Valid()
    {
      this.documentNode := documentNode;
      this.requestContext := requestContext;
      multistack := new ObjectMultistack();
    }

    /** After one element of an echo tag: on success the scratch stack holds
        the machine's stack and the context is the machine's; on an exception
        the context is what it was before the element. */
    ghost predicate Matches(r: Result<Machine>, fault: Option<Fault>, t: ObjectMultistack, ws: seq<ValueWrapper>, before: State)
      reads requestContext, t, t.Stack(Key), ws
    {
      (fault.None? <==> r.Ok?) &&
      (r.Ok? ==> Scratch(t, ws, r.value.stack) && r.value.ctx == requestContext.St()) &&
      (r.Err? ==> fault == Some(r.fault) && requestContext.St() == before)
    }

    /** A constant's text or a variable's value, pushed in a new wrapper. */
    method PushValue(t: ObjectMultistack, ghost ws: seq<ValueWrapper>, ghost vals: seq<Obj>, v: Obj)
      returns (ghost ws': seq<ValueWrapper>)
      requires Scratch(t, ws, vals)
      modifies t
      ensures Scratch(t, ws', vals + [v])
      ensures forall w :: w in ws' ==> w in ws || fresh(w)
    {
      var w := new ValueWrapper(v);
      EchoPush(t, ws, vals, w);
      ws' := ws + [w];
    }

    /** add, subtract, multiply or divide on the left wrapper, as the operator
        says. */
    method Calculate(left: ValueWrapper, op: ArithOp, right: Obj) returns (fault: Option<Fault>)
      modifies left
      ensures DoCalculation(old(left.value), right, op).Ok? ==>
        fault == None && left.value == DoCalculation(old(left.value), right, op).value
      ensures DoCalculation(old(left.value), right, op).Err? ==>
        fault == Some(DoCalculation(old(left.value), right, op).fault)
    {
      match op
      case Plus => fault := left.Add(right);
      case Minus => fault := left.Subtract(right);
      case Times => fault := left.Multiply(right);
      case Quotient => fault := left.Divide(right);
    }

    /** The left wrapper, holding the result of the operation, pushed back. */
    method PushResult(t: ObjectMultistack, ghost ws: seq<ValueWrapper>, ghost vals: seq<Obj>,
                      left: ValueWrapper, op: ArithOp, right: Obj)
      returns (fault: Option<Fault>, ghost ws': seq<ValueWrapper>)
      requires Scratch(t, ws, vals) && left !in ws
      modifies t, left
      ensures var r := DoCalculation(old(left.value), right, op);
        (fault.None? <==> r.Ok?) &&
        (r.Ok? ==> Scratch(t, ws', vals + [r.value])) &&
        (r.Err? ==> fault == Some(r.fault))
      ensures ws' == ws + [left]
    {
      ws' := ws + [left];
      fault := Calculate(left, op, right);
      if fault.Some? {
        return;
      }
      EchoPush(t, ws, vals, left);
    }

    /** A popped wrapper set to v and pushed back. */
    method Replace(t: ObjectMultistack, ghost ws: seq<ValueWrapper>, ghost vals: seq<Obj>, w: ValueWrapper, v: Obj)
      requires Scratch(t, ws, vals) && w !in ws
      modifies t, w
      ensures Scratch(t, ws + [w], vals + [v])
    {
      w.SetValue(v);
      EchoPush(t, ws, vals, w);
    }

    /** Pop the right operand, then the left, and push the left wrapper back
        holding the result. */
    method OpCall(t: ObjectMultistack, ghost ws: seq<ValueWrapper>, ghost vals: seq<Obj>, symbol: string)
      returns (fault: Option<Fault>, ghost ws': seq<ValueWrapper>)
      requires Scratch(t, ws, vals)
      modifies t, ws
      ensures |vals| < 2 ==> fault == Some(NoKey)
      ensures |vals| >= 2 && ArithOpOf(symbol).None? ==> fault == Some(IllegalArgument("Invalid operator!"))
      ensures |vals| >= 2 && ArithOpOf(symbol).Some? ==>
        var r := DoCalculation(vals[|vals| - 2], vals[|vals| - 1], ArithOpOf(symbol).value);
        (fault.None? <==> r.Ok?) &&
        (r.Ok? ==> Scratch(t, ws', vals[..|vals| - 2] + [r.value])) &&
        (r.Err? ==> fault == Some(r.fault))
      ensures forall w :: w in ws' ==> w in ws
    {
      ws' := ws;
      var pair := PopTwo(t, ws, vals);
      if pair.Err? {
        return Some(pair.fault), ws';
      }
      var op := ArithOpOf(symbol);
      if op.None? {
        return Some(IllegalArgument("Invalid operator!")), ws';
      }
      fault, ws' := CalculatePopped(t, ws, vals, pair.value.0, pair.value.1, op.value);
    }

    /** The rest of an operator once both operands are popped. */
    method CalculatePopped(t: ObjectMultistack, ghost ws: seq<ValueWrapper>, ghost vals: seq<Obj>,
                           left: ValueWrapper, rightWrapper: ValueWrapper, op: ArithOp)
      returns (fault: Option<Fault>, ghost ws': seq<ValueWrapper>)
      requires |ws| >= 2 && |vals| == |ws|
      requires Scratch(t, ws[..|ws| - 2], vals[..|vals| - 2])
      requires left == ws[|ws| - 2] && left !in ws[..|ws| - 2]
      requires left.value == vals[|vals| - 2] && rightWrapper.value == vals[|vals| - 1]
      modifies t, left
      ensures var r := DoCalculation(vals[|vals| - 2], vals[|vals| - 1], op);
        (fault.None? <==> r.Ok?) &&
        (r.Ok? ==> Scratch(t, ws', vals[..|vals| - 2] + [r.value])) &&
        (r.Err? ==> fault == Some(r.fault))
      ensures forall w :: w in ws' ==> w in ws
    {
      var right := rightWrapper.GetValue();
      fault, ws' := PushResult(t, ws[..|ws| - 2], vals[..|vals| - 2], left, op, right);
      assert forall w :: w in ws' ==> w in ws[..|ws| - 2] || w == ws[|ws| - 2];
    }

    /** An operator: pop the right operand, then the left, and push the left
        wrapper back holding the result. */
    method Operator(t: ObjectMultistack, ghost ws: seq<ValueWrapper>, ghost stack: seq<Obj>, symbol: string)
      returns (fault: Option<Fault>, ghost ws': seq<ValueWrapper>)
      requires Scratch(t, ws, stack)
      modifies t, ws
      ensures var r := OperatorStep(symbol, stack);
        (fault.None? <==> r.Ok?) &&
        (r.Ok? ==> Scratch(t, ws', r.value)) &&
        (r.Err? ==> fault == Some(r.fault))
      ensures forall w :: w in ws' ==> w in ws
    {
      OperatorTop(symbol, stack);
      fault, ws' := OpCall(t, ws, stack, symbol);
    }

    /** @sin: the wrapper is popped; the sine itself is not evaluated. */
    method Sin(t: ObjectMultistack, ghost ws: seq<ValueWrapper>, ghost m: Machine) returns (fault: Option<Fault>)
      requires Scratch(t, ws, m.stack)
      modifies t
      ensures SinStep(m).Err? && fault == Some(SinStep(m).fault)
    {
      var x := EchoPop(t, ws, m.stack);
      if x.Err? {
        return Some(x.fault);
      }
      var v := x.value.GetValue();
      if v.JInteger? || v.JDouble? {
        return Some(FloatingPoint);
      }
      fault := Some(IllegalArgument("Invalid argument for sin function!"));
    }

    /** @decfmt: the format is popped, then the number; the formatting itself
        is not evaluated. */
    method Decfmt(t: ObjectMultistack, ghost ws: seq<ValueWrapper>, ghost m: Machine) returns (fault: Option<Fault>)
      requires Scratch(t, ws, m.stack)
      modifies t
      ensures DecfmtStep(m).Err? && fault == Some(DecfmtStep(m).fault)
    {
      var pair := PopTwo(t, ws, m.stack);
      if pair.Err? {
        return Some(pair.fault);
      }
      var format := pair.value.1.GetValue();
      var number := pair.value.0.GetValue();
      if format.Null? || !(number.JInteger? || number.JDouble?) {
        return Some(IllegalArgument("Invalid argument for decfmt function!"));
      }
      fault := Some(FloatingPoint);
    }

    /** @dup: the popped wrapper goes back, and a new one holding its value
        above it. */
    method Dup(t: ObjectMultistack, ghost ws: seq<ValueWrapper>, ghost m: Machine)
      returns (fault: Option<Fault>, ghost ws': seq<ValueWrapper>)
      requires Scratch(t, ws, m.stack) && m.ctx == requestContext.St()
      modifies t
      ensures Matches(DupStep(m), fault, t, ws', m.ctx)
      ensures forall w :: w in ws' ==> w in ws || fresh(w)
    {
      DupTop(m);
      ws' := ws;
      var x := EchoPop(t, ws, m.stack);
      if x.Err? {
        return Some(x.fault), ws';
      }
      Restore(t, ws, m.stack, x.value);
      ws' := PushValue(t, ws, m.stack, x.value.value);
      fault := None;
    }

    /** @swap: the two top wrappers popped and pushed back in the order they
        came off. */
    method Swap(t: ObjectMultistack, ghost ws: seq<ValueWrapper>, ghost m: Machine)
      returns (fault: Option<Fault>, ghost ws': seq<ValueWrapper>)
      requires Scratch(t, ws, m.stack) && m.ctx == requestContext.St()
      modifies t
      ensures Matches(SwapStep(m), fault, t, ws', m.ctx)
      ensures forall w :: w in ws' ==> w in ws
    {
      SwapTop(m);
      ws' := ws;
      var pair := PopTwo(t, ws, m.stack);
      if pair.Err? {
        return Some(pair.fault), ws';
      }
      var h1, h2 := pair.value.1, pair.value.0;
      PushTwo(t, ws[..|ws| - 2], m.stack[..|m.stack| - 2], h1, h2);
      ws' := ws[..|ws| - 2] + [h1, h2];
      fault := None;
    }

    /** setMimeType. */
    method Mime(mimeType: string, t: ObjectMultistack, ghost ws: seq<ValueWrapper>, ghost vals: seq<Obj>)
      returns (fault: Option<Fault>)
      requires Scratch(t, ws, vals)
      modifies requestContext
      ensures Outcome(requestContext.St(), fault) == Unless(old(requestContext.St()), old(requestContext.St()).(mimeType := mimeType))
      ensures Scratch(t, ws, vals)
    {
      fault := requestContext.SetMimeType(mimeType);
    }

    /** Pop a value and set the mime type to its text. */
    method MimeCall(t: ObjectMultistack, ghost ws: seq<ValueWrapper>, ghost vals: seq<Obj>, ghost ctx: State)
      returns (fault: Option<Fault>, ghost ws': seq<ValueWrapper>)
      requires Scratch(t, ws, vals) && ctx == requestContext.St()
      modifies t, requestContext
      ensures vals == [] ==> fault == Some(NoKey) && requestContext.St() == ctx
      ensures vals != [] ==>
        var text := ObjToString(vals[|vals| - 1]);
        (text.Err? ==> fault == Some(text.fault) && requestContext.St() == ctx) &&
        (text.Ok? ==> Outcome(requestContext.St(), fault) == Unless(ctx, ctx.(mimeType := text.value)) &&
                      Scratch(t, ws', vals[..|vals| - 1]))
      ensures forall w :: w in ws' ==> w in ws
    {
      ws' := ws;
      var x := EchoPop(t, ws, vals);
      if x.Err? {
        return Some(x.fault), ws';
      }
      var v := x.value.GetValue();
      var text := ObjToString(v);
      if text.Err? {
        return Some(text.fault), ws';
      }
      ws' := ws[..|ws| - 1];
      fault := Mime(text.value, t, ws', vals[..|vals| - 1]);
    }

    /** @setMimeType: pop a value and set the mime type to its text. */
    method SetMime(t: ObjectMultistack, ghost ws: seq<ValueWrapper>, ghost m: Machine)
      returns (fault: Option<Fault>, ghost ws': seq<ValueWrapper>)
      requires Scratch(t, ws, m.stack) && m.ctx == requestContext.St()
      modifies t, requestContext
      ensures Matches(MimeStep(m), fault, t, ws', m.ctx)
      ensures forall w :: w in ws' ==> w in ws
    {
      MimeTop(m);
      fault, ws' := MimeCall(t, ws, m.stack, m.ctx);
    }

    /** The parameter map a get reads. */
    ghost function Table(scope: Scope): map<string, string>
      reads requestContext
    {
      match scope
      case Request => requestContext.parameters
      case Persistent => requestContext.St().persistent
      case Temporary => requestContext.St().temporary
    }

    /** The value a get leaves: the parameter under the name's text, or the
        default. */
    method Lookup(scope: Scope, name: Obj, default: Obj) returns (r: Result<Obj>)
      ensures r == GetResult(Table(scope), scope != Persistent, name, default)
    {
      var key := ObjToString(name);
      if key.Err? {
        return Err(key.fault);
      }
      var value: Option<string>;
      match scope {
        case Request => value := requestContext.GetParameter(key.value);
        case Persistent => value := requestContext.GetPersistentParameter(key.value);
        case Temporary => value := requestContext.GetTemporaryParameter(key.value);
      }
      if value.Some? {
        return Ok(JString(value.value));
      }
      if scope == Persistent {
        return Ok(default);
      }
      var text := ObjToString(default);
      if text.Err? {
        return Err(text.fault);
      }
      r := Ok(JString(text.value));
    }

    /** The name's wrapper pushed back holding what a get yields for it. */
    method Fetch(t: ObjectMultistack, ghost ws: seq<ValueWrapper>, ghost vals: seq<Obj>,
                 name: ValueWrapper, default: Obj, scope: Scope, ghost table: map<string, string>)
      returns (fault: Option<Fault>, ghost ws': seq<ValueWrapper>)
      requires Scratch(t, ws, vals) && name !in ws && table == Table(scope)
      modifies t, name
      ensures var r := GetResult(table, scope != Persistent, old(name.value), default);
        (fault.None? <==> r.Ok?) &&
        (r.Ok? ==> Scratch(t, ws', vals + [r.value])) &&
        (r.Err? ==> fault == Some(r.fault))
      ensures ws' == ws + [name]
    {
      ws' := ws + [name];
      var nameValue := name.GetValue();
      var result := Lookup(scope, nameValue, default);
      if result.Err? {
        return Some(result.fault), ws';
      }
      Replace(t, ws, vals, name, result.value);
      fault := None;
    }

    /** Pop the default, then the name, and push the name's wrapper back
        holding what the get yields. */
    method GetCall(t: ObjectMultistack, ghost ws: seq<ValueWrapper>, ghost vals: seq<Obj>, scope: Scope, ghost table: map<string, string>)
      returns (fault: Option<Fault>, ghost ws': seq<ValueWrapper>)
      requires Scratch(t, ws, vals) && table == Table(scope)
      modifies t, ws
      ensures |vals| < 2 ==> fault == Some(NoKey)
      ensures |vals| >= 2 ==>
        var r := GetResult(table, scope != Persistent, vals[|vals| - 2], vals[|vals| - 1]);
        (fault.None? <==> r.Ok?) &&
        (r.Ok? ==> Scratch(t, ws', vals[..|vals| - 2] + [r.value])) &&
        (r.Err? ==> fault == Some(r.fault))
      ensures forall w :: w in ws' ==> w in ws
    {
      ws' := ws;
      var pair := PopTwo(t, ws, vals);
      if pair.Err? {
        return Some(pair.fault), ws';
      }
      fault, ws' := FetchPopped(t, ws, vals, pair.value.0, pair.value.1, scope, table);
    }

    /** The rest of a get once the name and the default are popped. */
    method FetchPopped(t: ObjectMultistack, ghost ws: seq<ValueWrapper>, ghost vals: seq<Obj>,
                       name: ValueWrapper, defaultWrapper: ValueWrapper, scope: Scope, ghost table: map<string, string>)
      returns (fault: Option<Fault>, ghost ws': seq<ValueWrapper>)
      requires |ws| >= 2 && |vals| == |ws| && table == Table(scope)
      requires Scratch(t, ws[..|ws| - 2], vals[..|vals| - 2])
      requires name == ws[|ws| - 2] && name !in ws[..|ws| - 2]
      requires name.value == vals[|vals| - 2] && defaultWrapper.value == vals[|vals| - 1]
      modifies t, name
      ensures var r := GetResult(table, scope != Persistent, vals[|vals| - 2], vals[|vals| - 1]);
        (fault.None? <==> r.Ok?) &&
        (r.Ok? ==> Scratch(t, ws', vals[..|vals| - 2] + [r.value])) &&
        (r.Err? ==> fault == Some(r.fault))
      ensures forall w :: w in ws' ==> w in ws
    {
      var default := defaultWrapper.GetValue();
      fault, ws' := Fetch(t, ws[..|ws| - 2], vals[..|vals| - 2], name, default, scope, table);
    }

    /** @paramGet, @pparamGet and @tparamGet: pop the default, then the name;
        the name's wrapper goes back holding the parameter or the default. */
    method ParamGet(t: ObjectMultistack, ghost ws: seq<ValueWrapper>, ghost m: Machine, scope: Scope, ghost table: map<string, string>)
      returns (fault: Option<Fault>, ghost ws': seq<ValueWrapper>)
      requires Scratch(t, ws, m.stack) && m.ctx == requestContext.St() && table == Table(scope)
      modifies t, ws
      ensures Matches(GetStep(table, scope != Persistent, m), fault, t, ws', m.ctx)
      ensures forall w :: w in ws' ==> w in ws
    {
      GetTop(table, scope != Persistent, m);
      fault, ws' := GetCall(t, ws, m.stack, scope, table);
    }

    /** setPersistentParameter or setTemporaryParameter. */
    method Store(persistent: bool, key: string, text: string, t: ObjectMultistack, ghost ws: seq<ValueWrapper>, ghost vals: seq<Obj>)
      requires Scratch(t, ws, vals)
      modifies requestContext
      ensures requestContext.St() == Stored(persistent, old(requestContext.St()), key, text)
      ensures Scratch(t, ws, vals)
    {
      if persistent {
        requestContext.SetPersistentParameter(key, text);
      } else {
        requestContext.SetTemporaryParameter(key, text);
      }
    }

    /** removePersistentParameter or removeTemporaryParameter. */
    method Remove(persistent: bool, key: string, t: ObjectMultistack, ghost ws: seq<ValueWrapper>, ghost vals: seq<Obj>)
      requires Scratch(t, ws, vals)
      modifies requestContext
      ensures requestContext.St() == Removed(persistent, old(requestContext.St()), key)
      ensures Scratch(t, ws, vals)
    {
      if persistent {
        requestContext.RemovePersistentParameter(key);
      } else {
        requestContext.RemoveTemporaryParameter(key);
      }
    }

    /** Pop the name, then the value, and store the value's text under the
        name's text. */
    method SetCall(t: ObjectMultistack, ghost ws: seq<ValueWrapper>, ghost vals: seq<Obj>, persistent: bool, ghost ctx: State)
      returns (fault: Option<Fault>, ghost ws': seq<ValueWrapper>)
      requires Scratch(t, ws, vals) && ctx == requestContext.St()
      modifies t, requestContext
      ensures |vals| < 2 ==> fault == Some(NoKey) && requestContext.St() == ctx
      ensures |vals| >= 2 ==>
        var key := ObjToString(vals[|vals| - 1]);
        var text := ObjToString(vals[|vals| - 2]);
        (key.Err? ==> fault == Some(key.fault) && requestContext.St() == ctx) &&
        (key.Ok? && text.Err? ==> fault == Some(text.fault) && requestContext.St() == ctx) &&
        (key.Ok? && text.Ok? ==> fault == None && Scratch(t, ws', vals[..|vals| - 2]) &&
                                 requestContext.St() == Stored(persistent, ctx, key.value, text.value))
      ensures forall w :: w in ws' ==> w in ws
    {
      ws' := ws;
      var pair := PopTwo(t, ws, vals);
      if pair.Err? {
        return Some(pair.fault), ws';
      }
      fault, ws' := StorePopped(t, ws, vals, pair.value.1, pair.value.0, persistent, ctx);
    }

    /** The rest of a set once the name and the value are popped. */
    method StorePopped(t: ObjectMultistack, ghost ws: seq<ValueWrapper>, ghost vals: seq<Obj>,
                       nameWrapper: ValueWrapper, valueWrapper: ValueWrapper, persistent: bool, ghost ctx: State)
      returns (fault: Option<Fault>, ghost ws': seq<ValueWrapper>)
      requires |ws| >= 2 && |vals| == |ws| && ctx == requestContext.St()
      requires Scratch(t, ws[..|ws| - 2], vals[..|vals| - 2])
      requires nameWrapper.value == vals[|vals| - 1] && valueWrapper.value == vals[|vals| - 2]
      modifies requestContext
      ensures var key := ObjToString(vals[|vals| - 1]);
        var text := ObjToString(vals[|vals| - 2]);
        (key.Err? ==> fault == Some(key.fault) && requestContext.St() == ctx) &&
        (key.Ok? && text.Err? ==> fault == Some(text.fault) && requestContext.St() == ctx) &&
        (key.Ok? && text.Ok? ==> fault == None && Scratch(t, ws', vals[..|vals| - 2]) &&
                                 requestContext.St() == Stored(persistent, ctx, key.value, text.value))
      ensures forall w :: w in ws' ==> w in ws
    {
      ws' := ws[..|ws| - 2];
      var name := nameWrapper.GetValue();
      var value := valueWrapper.GetValue();
      var key := ObjToString(name);
      if key.Err? {
        return Some(key.fault), ws';
      }
      var text := ObjToString(value);
      if text.Err? {
        return Some(text.fault), ws';
      }
      Store(persistent, key.value, text.value, t, ws[..|ws| - 2], vals[..|vals| - 2]);
      fault := None;
    }

    /** @pparamSet and @tparamSet: pop the name, then the value, and store the
        value's text under the name's text. */
    method ParamSet(t: ObjectMultistack, ghost ws: seq<ValueWrapper>, ghost m: Machine, persistent: bool)
      returns (fault: Option<Fault>, ghost ws': seq<ValueWrapper>)
      requires Scratch(t, ws, m.stack) && m.ctx == requestContext.St()
      modifies t, requestContext
      ensures Matches(SetStep(persistent, m), fault, t, ws', m.ctx)
      ensures forall w :: w in ws' ==> w in ws
    {
      SetTop(persistent, m);
      fault, ws' := SetCall(t, ws, m.stack, persistent, m.ctx);
    }

    /** Pop the name and remove the parameter of that text. */
    method DelCall(t: ObjectMultistack, ghost ws: seq<ValueWrapper>, ghost vals: seq<Obj>, persistent: bool, ghost ctx: State)
      returns (fault: Option<Fault>, ghost ws': seq<ValueWrapper>)
      requires Scratch(t, ws, vals) && ctx == requestContext.St()
      modifies t, requestContext
      ensures vals == [] ==> fault == Some(NoKey) && requestContext.St() == ctx
      ensures vals != [] ==>
        var key := ObjToString(vals[|vals| - 1]);
        (key.Err? ==> fault == Some(key.fault) && requestContext.St() == ctx) &&
        (key.Ok? ==> fault == None && Scratch(t, ws', vals[..|vals| - 1]) &&
                     requestContext.St() == Removed(persistent, ctx, key.value))
      ensures forall w :: w in ws' ==> w in ws
    {
      ws' := ws;
      var x := EchoPop(t, ws, vals);
      if x.Err? {
        return Some(x.fault), ws';
      }
      var name := x.value.GetValue();
      var key := ObjToString(name);
      if key.Err? {
        return Some(key.fault), ws';
      }
      ghost var rest, restVals := ws[..|ws| - 1], vals[..|vals| - 1];
      Remove(persistent, key.value, t, rest, restVals);
      ws' := rest;
      fault := None;
    }

    /** @pparamDel and @tparamDel: pop a name and remove that parameter. */
    method ParamDel(t: ObjectMultistack, ghost ws: seq<ValueWrapper>, ghost m: Machine, persistent: bool)
      returns (fault: Option<Fault>, ghost ws': seq<ValueWrapper>)
      requires Scratch(t, ws, m.stack) && m.ctx == requestContext.St()
      modifies t, requestContext
      ensures Matches(DelStep(persistent, m), fault, t, ws', m.ctx)
      ensures forall w :: w in ws' ==> w in ws
    {
      DelTop(persistent, m);
      fault, ws' := DelCall(t, ws, m.stack, persistent, m.ctx);
    }

    /** A function call of an echo tag, by its name. */
    method Function(t: ObjectMultistack, ghost ws: seq<ValueWrapper>, ghost m: Machine, name: string)
      returns (fault: Option<Fault>, ghost ws': seq<ValueWrapper>)
      requires Scratch(t, ws, m.stack) && m.ctx == requestContext.St()
      modifies t, ws, requestContext
      ensures Matches(FunctionStep(name, requestContext.parameters, m), fault, t, ws', m.ctx)
      ensures forall w :: w in ws' ==> w in ws || fresh(w)
    {
      ws' := ws;
      if name == "@sin" {
        fault := Sin(t, ws, m);
      } else if name == "@decfmt" {
        fault := Decfmt(t, ws, m);
      } else if name == "@dup" {
        fault, ws' := Dup(t, ws, m);
      } else if name == "@swap" {
        fault, ws' := Swap(t, ws, m);
      } else if name == "@setMimeType" {
        fault, ws' := SetMime(t, ws, m);
      } else if name == "@paramGet" {
        fault, ws' := ParamGet(t, ws, m, Request, requestContext.parameters);
      } else if name == "@pparamGet" {
        fault, ws' := ParamGet(t, ws, m, Persistent, m.ctx.persistent);
      } else if name == "@tparamGet" {
        fault, ws' := ParamGet(t, ws, m, Temporary, m.ctx.temporary);
      } else if name == "@pparamSet" {
        fault, ws' := ParamSet(t, ws, m, true);
      } else if name == "@tparamSet" {
        fault, ws' := ParamSet(t, ws, m, false);
      } else if name == "@pparamDel" {
        fault, ws' := ParamDel(t, ws, m, true);
      } else if name == "@tparamDel" {
        fault, ws' := ParamDel(t, ws, m, false);
      } else {
        fault := Some(IllegalArgument("Function " + name + " not defined"));
      }
    }
  
    /** A string, integer or double constant: a new wrapper holding its text. */
    method Constant(t: ObjectMultistack, ghost ws: seq<ValueWrapper>, ghost m: Machine, e: Element)
      returns (fault: Option<Fault>, ghost ws': seq<ValueWrapper>)
      requires Scratch(t, ws, m.stack) && m.ctx == requestContext.St()
      requires e.ElementString? || e.ElementConstantInteger? || e.ElementConstantDouble?
      modifies t
      ensures Matches(EchoStep(e, map[], requestContext.parameters, m), fault, t, ws', m.ctx)
      ensures forall w :: w in ws' ==> w in ws || fresh(w)
    {
      ws' := PushValue(t, ws, m.stack, JString(AsText(e)));
      fault := None;
    }

    /** A variable: a new wrapper holding the value on top of the engine's
        stack of that name, or IllegalArgumentException when there is none. */
    method Variable(t: ObjectMultistack, ghost ws: seq<ValueWrapper>, ghost m: Machine, name: string, ghost env: map<string, Obj>)
      returns (fault: Option<Fault>, ghost ws': seq<ValueWrapper>)
      requires Scratch(t, ws, m.stack) && m.ctx == requestContext.St()
      requires env == multistack.TopValues()
      modifies t
      ensures Matches(EchoStep(ElementVariable(name), env, requestContext.parameters, m), fault, t, ws', m.ctx)
      ensures forall w :: w in ws' ==> w in ws || fresh(w)
    {
      var top := multistack.Peek(name);
      if top.Err? {
        fault, ws' := Some(top.fault), ws;
      } else {
        var v := top.value.GetValue();
        ws' := PushValue(t, ws, m.stack, v);
        fault := None;
      }
    }

    /** An operator element, on the machine. */
    method OperatorElement(t: ObjectMultistack, ghost ws: seq<ValueWrapper>, ghost m: Machine, symbol: string)
      returns (fault: Option<Fault>, ghost ws': seq<ValueWrapper>)
      requires Scratch(t, ws, m.stack) && m.ctx == requestContext.St()
      modifies t, ws
      ensures Matches(EchoStep(ElementOperator(symbol), map[], requestContext.parameters, m), fault, t, ws', m.ctx)
      ensures forall w :: w in ws' ==> w in ws
    {
      fault, ws' := Operator(t, ws, m.stack, symbol);
    }

    /** One element of an echo tag: a constant's text or a variable's value
        pushed, an operator or a function applied. */
    method Step(t: ObjectMultistack, ghost ws: seq<ValueWrapper>, ghost m: Machine, e: Element, ghost env: map<string, Obj>)
      returns (fault: Option<Fault>, ghost ws': seq<ValueWrapper>)
      requires Scratch(t, ws, m.stack) && m.ctx == requestContext.St()
      requires env == multistack.TopValues()
      modifies t, ws, requestContext
      ensures Matches(EchoStep(e, env, requestContext.parameters, m), fault, t, ws', m.ctx)
      ensures forall w :: w in ws' ==> w in ws || fresh(w)
    {
      match e {
        case ElementVariable(name) =>
          fault, ws' := Variable(t, ws, m, name, env);
        case ElementOperator(symbol) =>
          fault, ws' := OperatorElement(t, ws, m, symbol);
        case ElementFunction(name) =>
          fault, ws' := Function(t, ws, m, name);
        case _ =>
          fault, ws' := Constant(t, ws, m, e);
      }
    }

    /** Halfway through the second drain loop: the values still under
        ReversedKey are the top of stack, and the ones below them are
        written. */
    ghost predicate Writing(t: ObjectMultistack, stack: seq<Obj>, ctx: State, rs: seq<ValueWrapper>, rvals: seq<Obj>)
      reads requestContext, t, t.Stack(ReversedKey), rs
    {
      Mirrored(t, stack, rs, rvals) &&
      WriteAll(stack[..|stack| - |rvals|], ctx) == Outcome(requestContext.St(), None)
    }

    /** write(String) of the text of v, the lowest value of stack not
        written yet. */
    method WriteValue(v: Obj, t: ObjectMultistack, ghost stack: seq<Obj>, ghost ctx: State, ghost rs: seq<ValueWrapper>, ghost rvals: seq<Obj>)
      returns (fault: Option<Fault>)
      requires Mirrored(t, stack, rs, rvals) && |rvals| < |stack| && v == stack[|stack| - |rvals| - 1]
      requires WriteAll(stack[..|stack| - |rvals| - 1], ctx) == Outcome(requestContext.St(), None)
      modifies requestContext
      ensures fault.None? ==> Writing(t, stack, ctx, rs, rvals)
      ensures fault.Some? ==> Outcome(requestContext.St(), fault) == WriteAll(stack, ctx)
    {
      ghost var j := |stack| - |rvals| - 1;
      WritePrefixStep(stack, j, ctx);
      var text := ObjToString(v);
      if text.Err? {
        fault := Some(text.fault);
        WritesFaultFinal(stack, j + 1, ctx);
        return;
      }
      fault := requestContext.WriteText(text.value);
      if fault.Some? {
        WritesFaultFinal(stack, j + 1, ctx);
      }
    }

    /** One turn of the second drain loop: pop, then write(String) of the
        value's text. */
    method WriteOne(t: ObjectMultistack, ghost stack: seq<Obj>, ghost ctx: State, ghost rs: seq<ValueWrapper>, ghost rvals: seq<Obj>)
      returns (fault: Option<Fault>, ghost rs': seq<ValueWrapper>, ghost rvals': seq<Obj>)
      requires Writing(t, stack, ctx, rs, rvals) && rs != []
      modifies t, requestContext
      ensures fault.None? ==> Writing(t, stack, ctx, rs', rvals') && |rs'| == |rs| - 1
      ensures fault.Some? ==> Outcome(requestContext.St(), fault) == WriteAll(stack, ctx)
    {
      var v;
      v, rs', rvals' := PopMirror(t, stack, rs, rvals);
      fault := WriteValue(v, t, stack, ctx, rs', rvals');
    }

    /** The second drain loop: every value, bottom of the echo stack first,
        written as text. */
    method WriteOut(t: ObjectMultistack, ghost stack: seq<Obj>, ghost ctx: State, ghost rs: seq<ValueWrapper>, ghost rvals: seq<Obj>)
      returns (fault: Option<Fault>)
      requires Writing(t, stack, ctx, rs, rvals)
      modifies t, requestContext
      ensures Outcome(requestContext.St(), fault) == WriteAll(stack, ctx)
    {
      ghost var rs', rvals' := rs, rvals;
      while !t.IsEmpty(ReversedKey)
        invariant Writing(t, stack, ctx, rs', rvals')
        decreases |rs'|
      {
        fault, rs', rvals' := WriteOne(t, stack, ctx, rs', rvals');
        if fault.Some? {
          return;
        }
      }
      assert stack[..|stack| - |rvals'|] == stack;
      fault := None;
    }

    /** The end of an echo tag: when its stack is not empty, the stack is
        reversed under ReversedKey and then written out, bottom first. */
    method Drain(t: ObjectMultistack, ghost ws: seq<ValueWrapper>, ghost stack: seq<Obj>)
      returns (fault: Option<Fault>)
      requires Scratch(t, ws, stack)
      modifies t, requestContext
      ensures Outcome(requestContext.St(), fault) == WriteAll(stack, old(requestContext.St()))
    {
      ghost var ctx := requestContext.St();
      if !t.IsEmpty(Key) {
        ghost var rs, rvals := Reverse(t, ws, stack);
        assert stack[..|stack| - |rvals|] == [];
        fault := WriteOut(t, stack, ctx, rs, rvals);
      } else {
        fault := None;
      }
    }

    /** The first i elements of an echo tag ran without an exception, leaving
        the machine m on the scratch stack. */
    ghost predicate Ran(t: ObjectMultistack, ws: seq<ValueWrapper>, m: Machine, elements: seq<Element>, i: nat,
                        env: map<string, Obj>, ctx: State)
      reads requestContext, t, t.Stack(Key), ws
    {
      i <= |elements| && Scratch(t, ws, m.stack) && m.ctx == requestContext.St() &&
      RunElements(elements[..i], env, requestContext.parameters, Machine([], ctx)) == EchoRun(m, None)
    }

    /** The i-th element of an echo tag, after the ones before it. The
        engine's loop variables are untouched. */
    method EchoElement(t: ObjectMultistack, ghost ws: seq<ValueWrapper>, ghost m: Machine, elements: seq<Element>, i: nat,
                       ghost env: map<string, Obj>, ghost ctx: State)
      returns (fault: Option<Fault>, ghost ws': seq<ValueWrapper>, ghost m': Machine)
      requires i < |elements| && t != multistack && Ran(t, ws, m, elements, i, env, ctx)
      requires env.Keys == multistack.entries.Keys
      requires forall k :: k in env ==> multistack.entries[k].value.value == env[k] && multistack.entries[k].value !in ws
      modifies t, ws, requestContext
      ensures forall j :: 0 <= j < |ws'| ==> ws'[j] in ws || fresh(ws'[j])
      ensures forall k :: k in env ==> multistack.entries[k].value.value == env[k]
      ensures fault.None? ==> Ran(t, ws', m', elements, i + 1, env, ctx)
      ensures fault.Some? ==> Outcome(requestContext.St(), fault) == ExecEcho(elements, env, requestContext.parameters, ctx)
    {
      assert env == multistack.TopValues();
      fault, ws' := Step(t, ws, m, elements[i], env);
      assert elements[..i + 1][..i] == elements[..i];
      if fault.Some? {
        ElementsFaultFinal(elements, i + 1, env, requestContext.parameters, Machine([], ctx));
        m' := m;
      } else {
        m' := EchoStep(elements[i], env, requestContext.parameters, m).value;
      }
    }

    /** The loop over an echo tag's elements, on the empty scratch stack t. */
    method RunAll(t: ObjectMultistack, elements: seq<Element>, ghost env: map<string, Obj>)
      returns (fault: Option<Fault>, ghost ws: seq<ValueWrapper>, ghost m: Machine)
      requires t != multistack && Scratch(t, [], [])
      requires env.Keys == multistack.entries.Keys
      requires forall k :: k in env ==> multistack.entries[k].value.value == env[k]
      modifies t, requestContext
      ensures fault.None? ==> Ran(t, ws, m, elements, |elements|, env, old(requestContext.St()))
      ensures fault.Some? ==>
        Outcome(requestContext.St(), fault) == ExecEcho(elements, env, requestContext.parameters, old(requestContext.St()))
    {
      ghost var ctx := requestContext.St();
      ws, m := [], Machine([], ctx);
      var i := 0;
      while i < |elements|
        invariant Ran(t, ws, m, elements, i, env, ctx)
        invariant forall j :: 0 <= j < |ws| ==> fresh(ws[j])
        invariant forall k :: k in env ==> multistack.entries[k].value.value == env[k]
      {
        fault, ws, m := EchoElement(t, ws, m, elements, i, env, ctx);
        if fault.Some? {
          return;
        }
        i := i + 1;
      }
      fault := None;
    }

    /** visitEchoNode: the elements run on a new ObjectMultistack, then what is
        left on it is written out, bottom first. */
    method VisitEcho(elements: seq<Element>) returns (fault: Option<Fault>)
      modifies requestContext
      ensures Outcome(requestContext.St(), fault) ==
              ExecEcho(elements, old(multistack.TopValues()), requestContext.parameters, old(requestContext.St()))
    {
      ghost var env := multistack.TopValues();
      var t := new ObjectMultistack();
      ghost var ws, m;
      fault, ws, m := RunAll(t, elements, env);
      if fault.None? {
        assert elements[..|elements|] == elements;
        fault := Drain(t, ws, m.stack);
      }
    }

    /** visitTextNode: the text written as it is. */
    method VisitText(text: string) returns (fault: Option<Fault>)
      modifies requestContext
      ensures Outcome(requestContext.St(), fault) == Apply(old(requestContext.St()), WriteText(text))
    {
      fault := requestContext.WriteText(text);
    }

    /** visitNode: a node of any kind. On success the engine's stacks are as
        they were. */
    method VisitNode(n: Node, fuel: nat) returns (fault: Option<Fault>)
      requires multistack.Valid()
      modifies requestContext, multistack
      ensures Outcome(requestContext.St(), fault) ==
              ExecNode(n, old(multistack.TopValues()), requestContext.parameters, old(requestContext.St()), fuel)
      ensures multistack.Valid()
      ensures fault.None? ==> multistack.entries == old(multistack.entries)
      decreases n, 2
    {
      match n {
        case DocumentNode(children) =>
          fault := VisitChildren(children, fuel);
        case TextNode(text) =>
          fault := VisitText(text);
        case EchoNode(elements) =>
          fault := VisitEcho(elements);
        case ForLoopNode(variable, start, end, step, children) =>
          if step.None? {
            fault := Some(NullPointer);
          } else {
            fault := VisitFor(variable, start, end, step.value, children, fuel);
          }
      }
    }

    /** The children of a node in index order; the first exception ends the
        visit. */
    method VisitChildren(children: seq<Node>, fuel: nat) returns (fault: Option<Fault>)
      requires multistack.Valid()
      modifies requestContext, multistack
      ensures Outcome(requestContext.St(), fault) ==
              ExecChildren(children, old(multistack.TopValues()), requestContext.parameters, old(requestContext.St()), fuel)
      ensures multistack.Valid()
      ensures fault.None? ==> multistack.entries == old(multistack.entries)
      decreases children, 3
    {
      ghost var env := multistack.TopValues();
      ghost var ctx := requestContext.St();
      ghost var entries := multistack.entries;
      var i := 0;
      while i < |children|
        invariant i <= |children| && multistack.Valid() && multistack.entries == entries
        invariant forall k :: k in entries ==> entries[k].value.value == env[k]
        invariant ExecChildren(children[..i], env, requestContext.parameters, ctx, fuel) == Outcome(requestContext.St(), None)
      {
        assert multistack.TopValues() == env;
        fault := VisitNode(children[i], fuel);
        assert children[..i + 1][..i] == children[..i];
        if fault.Some? {
          ChildrenFaultFinal(children, i + 1, env, requestContext.parameters, ctx, fuel);
          return;
        }
        i := i + 1;
      }
      assert children[..i] == children;
      fault := None;
    }

    /** The state of a FOR loop between iterations: the variable's stack has
        top, holding current, pushed over the entries the loop began with;
        the other top values are still env; and running the rest of the loop
        from here with iterations left ends in total. */
    ghost predicate Looping(variable: string, current: ValueWrapper, last: Obj, inc: Obj, body: seq<Node>, fuel: nat,
                            iterations: nat, env: map<string, Obj>, entries: map<string, MultistackEntry>,
                            top: MultistackEntry, tops: map<string, ValueWrapper>, total: Outcome)
      reads multistack, requestContext, current, top, entries.Values, tops.Values
    {
      multistack.Valid() && multistack.entries == entries[variable := top] && top.value == current &&
      env.Keys == entries.Keys == tops.Keys &&
      (forall k :: k in entries ==> entries[k].value == tops[k]) &&
      (forall k :: k in tops ==> tops[k].value == env[k] && tops[k] != current) &&
      ForLoop(variable, current.value, last, inc, body, env, requestContext.parameters, requestContext.St(), fuel, iterations) == total
    }

    /** One iteration of a FOR loop that the comparison let through: the
        body with the variable bound to w's value, then w increased by the
        step. */
    method ForBody(variable: string, w: ValueWrapper, last: Obj, inc: Obj, body: seq<Node>, fuel: nat, iterations: nat,
                   ghost env: map<string, Obj>, ghost entries: map<string, MultistackEntry>, ghost top: MultistackEntry,
                   ghost tops: map<string, ValueWrapper>, ghost total: Outcome)
      returns (fault: Option<Fault>)
      requires Looping(variable, w, last, inc, body, fuel, iterations, env, entries, top, tops, total)
      requires iterations > 0 && NumCompare(w.value, last).Ok? && NumCompare(w.value, last).value <= 0
      modifies requestContext, multistack, w
      ensures multistack.Valid()
      ensures fault.None? ==> Looping(variable, w, last, inc, body, fuel, iterations - 1, env, entries, top, tops, total)
      ensures fault.Some? ==> Outcome(requestContext.St(), fault) == total
      decreases body, 4
    {
      assert multistack.TopValues() == env[variable := w.value];
      fault := VisitChildren(body, fuel);
      if fault.Some? {
        return;
      }
      fault := w.Add(inc);
    }

    /** One turn of visitForLoopNode's loop: the variable is peeked and
        compared with the end value; the loop stops on a fault or when it is
        past the end, and otherwise runs the body and adds the step. */
    method ForTurn(variable: string, current: ValueWrapper, last: Obj, inc: Obj, body: seq<Node>, fuel: nat, iterations: nat,
                   ghost env: map<string, Obj>, ghost entries: map<string, MultistackEntry>, ghost top: MultistackEntry,
                   ghost tops: map<string, ValueWrapper>, ghost total: Outcome)
      returns (fault: Option<Fault>, stop: bool, left: nat)
      requires Looping(variable, current, last, inc, body, fuel, iterations, env, entries, top, tops, total)
      modifies requestContext, multistack, current
      ensures multistack.Valid()
      ensures !stop ==>
        fault.None? && left < iterations && Looping(variable, current, last, inc, body, fuel, left, env, entries, top, tops, total)
      ensures stop ==> Outcome(requestContext.St(), fault) == total
      ensures stop && fault.None? ==> multistack.entries == entries[variable := top]
      decreases body, 5
    {
      var peeked := multistack.Peek(variable);
      var c := peeked.value.NumCompareWith(last);
      if c.Err? {
        return Some(c.fault), true, iterations;
      }
      if c.value > 0 {
        return None, true, iterations;
      }
      if iterations == 0 {
        return Some(FuelExhausted), true, iterations;
      }
      fault := ForBody(variable, peeked.value, last, inc, body, fuel, iterations, env, entries, top, tops, total);
      stop, left := fault.Some?, iterations - 1;
    }

    /** The pop that ends visitForLoopNode: top was pushed on the variable's
        stack as it stood in entries, so popping it gives entries back. */
    method ForEnd(variable: string, ghost entries: map<string, MultistackEntry>, ghost top: MultistackEntry)
      requires multistack.Valid() && multistack.entries == entries[variable := top] && top.Valid()
      requires top.below == if variable in entries then [entries[variable]] + entries[variable].below else []
      modifies multistack
      ensures multistack.Valid() && multistack.entries == entries
    {
      var popped := multistack.Pop(variable);
      if variable in entries {
        assert multistack.entries == entries[variable := entries[variable]];
      } else {
        assert multistack.entries == entries[variable := top] - {variable};
      }
    }

    /** The wrappers of a FOR loop's three texts, and the new wrapper of the
        variable holding the start's value. */
    method ForValues(start: Element, end: Element, step: Element) returns (current: ValueWrapper, last: Obj, inc: Obj)
      ensures fresh(current) && current.value == JString(AsText(start))
      ensures last == JString(AsText(end)) && inc == JString(AsText(step))
    {
      var startValue := new ValueWrapper(JString(AsText(start)));
      var endValue := new ValueWrapper(JString(AsText(end)));
      var stepValue := new ValueWrapper(JString(AsText(step)));
      var first := startValue.GetValue();
      last := endValue.GetValue();
      inc := stepValue.GetValue();
      current := new ValueWrapper(first);
    }

    /** The start of visitForLoopNode: the wrappers of the three texts are
        made and a new wrapper holding the start value is pushed on the
        variable's stack. */
    method ForStart(variable: string, start: Element, end: Element, step: Element, body: seq<Node>, fuel: nat,
                    ghost env: map<string, Obj>, ghost entries: map<string, MultistackEntry>,
                    ghost tops: map<string, ValueWrapper>)
      returns (current: ValueWrapper, last: Obj, inc: Obj, ghost top: MultistackEntry)
      requires multistack.Valid() && multistack.entries == entries && env.Keys == entries.Keys == tops.Keys
      requires forall k :: k in entries ==> entries[k].value == tops[k] && tops[k].value == env[k]
      modifies multistack
      ensures fresh(current) && last == JString(AsText(end)) && inc == JString(AsText(step))
      ensures Looping(variable, current, last, inc, body, fuel, fuel, env, entries, top, tops,
                      ForLoop(variable, JString(AsText(start)), last, inc, body, env, requestContext.parameters,
                              requestContext.St(), fuel, fuel))
      ensures top.Valid() && top.below == if variable in entries then [entries[variable]] + entries[variable].below else []
    {
      current, last, inc := ForValues(start, end, step);
      ghost var below := multistack.Stack(variable);
      multistack.Push(variable, current);
      top := multistack.entries[variable];
      assert multistack.Stack(variable) == [top] + top.below == [top] + below;
      assert top.below == ([top] + below)[1..] == below;
    }

    /** visitForLoopNode with a step: the variable is pushed with the start's
        text, compared with the end's text before every iteration, and
        increased by the step's text after it; it is popped when the loop
        ends. At most fuel iterations run; one more ends in FuelExhausted. */
    method VisitFor(variable: string, start: Element, end: Element, step: Element, body: seq<Node>, fuel: nat)
      returns (fault: Option<Fault>)
      requires multistack.Valid()
      modifies requestContext, multistack
      ensures Outcome(requestContext.St(), fault) ==
              ForLoop(variable, JString(AsText(start)), JString(AsText(end)), JString(AsText(step)), body,
                      old(multistack.TopValues()), requestContext.parameters, old(requestContext.St()), fuel, fuel)
      ensures multistack.Valid()
      ensures fault.None? ==> multistack.entries == old(multistack.entries)
      decreases body, 6
    {
      ghost var env := multistack.TopValues();
      ghost var entries := multistack.entries;
      ghost var total := ForLoop(variable, JString(AsText(start)), JString(AsText(end)), JString(AsText(step)), body,
                                 env, requestContext.parameters, requestContext.St(), fuel, fuel);
      ghost var tops := map k | k in entries :: entries[k].value;
      var current, last, inc, top := ForStart(variable, start, end, step, body, fuel, env, entries, tops);
      var iterations := fuel;
      var stop;
      while true
        invariant fresh(current)
        invariant Looping(variable, current, last, inc, body, fuel, iterations, env, entries, top, tops, total)
        decreases iterations
      {
        fault, stop, iterations := ForTurn(variable, current, last, inc, body, fuel, iterations, env, entries, top, tops, total);
        if stop {
          break;
        }
      }
      if fault.Some? {
        return;
      }
      ForEnd(variable, entries, top);
    }

    /** execute: the document node visited. */
    method Execute(fuel: nat) returns (fault: Option<Fault>)
      requires multistack.Valid()
      modifies requestContext, multistack
      ensures Outcome(requestContext.St(), fault) ==
              ExecNode(documentNode, old(multistack.TopValues()), requestContext.parameters, old(requestContext.St()), fuel)
      ensures multistack.Valid()
      ensures fault.None? ==> multistack.entries == old(multistack.entries)
    {
      fault := VisitNode(documentNode, fuel);
    }
}
}
