/** Properties of the evaluator that relate several steps: evaluation
    order, short-circuiting, call checks, lexical scoping of blocks and
    calls, and how `return` and raised errors unwind. */
module InterpreterProperties {
  import opened Wrappers
  import opened Tokens
  import opened Ast
  import opened Values
  import opened Environment
  import opened Interpreter

  /** `!=` is always the negation of `==`, on every pair of values. */
  lemma NotEqualNegatesEqual(eq: Token, ne: Token, left: Value, right: Value)
    requires eq.kind == EQUAL_EQUAL && ne.kind == BANG_EQUAL
    ensures BinaryOp(eq, left, right).Success? && BinaryOp(ne, left, right).Success?
    ensures BinaryOp(ne, left, right).value == Bool(!BinaryOp(eq, left, right).value.b)
  {
  }

  /** A logical operator whose left operand decides the result yields that
      operand's value and never evaluates the right operand; otherwise the
      result is the right operand's evaluation, in the state the left one
      left behind. */
  lemma LogicalShortCircuit(locals: map<nat, nat>, fuel: nat, st: State, env: nat, left: Expr, op: Token, right: Expr)
    requires Good(st) && env < |st.arena|
    requires Eval(locals, fuel, st, env, left).Evaluated?
    ensures var l := Eval(locals, fuel, st, env, left);
      Eval(locals, fuel, st, env, Logical(left, op, right)) ==
        if (op.kind == OR) == IsTruthy(l.value) then l
        else Eval(locals, fuel, l.st, env, right)
  {
    assert Eval(locals, fuel, st, env, Logical(left, op, right)) == EvalLogical(locals, fuel, st, env, left, op, right);
  }

  /** When the left operand of a binary operator raises, the right operand
      is never evaluated: the expression raises the same signal in the same
      state. */
  lemma BinaryLeftRaises(locals: map<nat, nat>, fuel: nat, st: State, env: nat, left: Expr, op: Token, right: Expr)
    requires Good(st) && env < |st.arena|
    requires Eval(locals, fuel, st, env, left).Raised?
    ensures Eval(locals, fuel, st, env, Binary(left, op, right)) == Eval(locals, fuel, st, env, left)
  {
    assert Eval(locals, fuel, st, env, Binary(left, op, right)) == EvalBinary(locals, fuel, st, env, left, op, right);
  }

  /** A call whose argument count differs from the function's arity raises
      the arity error at the closing parenthesis after the arguments are
      evaluated and before any frame is created for the body. */
  lemma ArityCheckedBeforeCall(locals: map<nat, nat>, fuel: nat, st: State, env: nat, callee: Expr, paren: Token, args: seq<Expr>)
    requires Good(st) && env < |st.arena|
    requires Eval(locals, fuel, st, env, callee).Evaluated?
    requires Eval(locals, fuel, st, env, callee).value.Function?
    requires EvalArgs(locals, fuel, Eval(locals, fuel, st, env, callee).st, env, args).ArgsEvaluated?
    requires |args| != |Eval(locals, fuel, st, env, callee).value.decl.params|
    ensures var f := Eval(locals, fuel, st, env, callee);
      var a := EvalArgs(locals, fuel, f.st, env, args);
      Eval(locals, fuel, st, env, Call(callee, paren, args)) ==
        Raised(a.st, RuntimeError(paren, "Expected " + NatToString(|f.value.decl.params|) + " args but got " + NatToString(|args|) + "."))
  {
    assert Eval(locals, fuel, st, env, Call(callee, paren, args)) == EvalCall(locals, fuel, st, env, callee, paren, args);
  }

  /** Only functions can be called: calling a boolean, number or string
      raises "Can only call functions and classes." without evaluating
      anything further than the arguments. */
  lemma CallingNonFunction(locals: map<nat, nat>, fuel: nat, st: State, env: nat, callee: Expr, paren: Token, args: seq<Expr>)
    requires Good(st) && env < |st.arena|
    requires Eval(locals, fuel, st, env, callee).Evaluated?
    requires Eval(locals, fuel, st, env, callee).value.Bool? || Eval(locals, fuel, st, env, callee).value.Num? || Eval(locals, fuel, st, env, callee).value.Str?
    requires EvalArgs(locals, fuel, Eval(locals, fuel, st, env, callee).st, env, args).ArgsEvaluated?
    ensures var a := EvalArgs(locals, fuel, Eval(locals, fuel, st, env, callee).st, env, args);
      Eval(locals, fuel, st, env, Call(callee, paren, args)) == Raised(a.st, RuntimeError(paren, NotCallable))
  {
    assert Eval(locals, fuel, st, env, Call(callee, paren, args)) == EvalCall(locals, fuel, st, env, callee, paren, args);
  }

  /** A well-formed call runs the body in a fresh frame whose enclosing frame
      is the function's closure, not the caller's frame: functions are
      lexically scoped. */
  lemma CallFrameEnclosedByClosure(locals: map<nat, nat>, fuel: nat, st: State, env: nat, callee: Expr, paren: Token, args: seq<Expr>)
    requires Good(st) && env < |st.arena| && fuel > 0
    requires Eval(locals, fuel, st, env, callee).Evaluated?
    requires Eval(locals, fuel, st, env, callee).value.Function?
    requires EvalArgs(locals, fuel, Eval(locals, fuel, st, env, callee).st, env, args).ArgsEvaluated?
    requires |args| == |Eval(locals, fuel, st, env, callee).value.decl.params|
    ensures var f := Eval(locals, fuel, st, env, callee);
      var a := EvalArgs(locals, fuel, f.st, env, args);
      var r := Eval(locals, fuel, st, env, Call(callee, paren, args));
      |r.st.arena| > |a.st.arena| && r.st.arena[|a.st.arena|].parent == Some(f.value.closure)
  {
    assert Eval(locals, fuel, st, env, Call(callee, paren, args)) == EvalCall(locals, fuel, st, env, callee, paren, args);
  }

  /** Parameter `i` is bound to argument `i` in the call frame, unless a
      later parameter has the same name, which then wins. */
  lemma {:induction false} ParametersBound(st: State, frame: nat, params: seq<Token>, args: seq<Value>, i: nat)
    requires Good(st) && frame < |st.arena| && |params| == |args|
    requires forall k :: 0 <= k < |args| ==> ValueOk(st, args[k])
    requires i < |params| && forall j :: i < j < |params| ==> params[j].lexeme != params[i].lexeme
    ensures var after := DefineParameters(st, frame, params, args);
      params[i].lexeme in after.arena[frame].vars && after.arena[frame].vars[params[i].lexeme] == args[i]
    decreases |params|
  {
    var n := |params| - 1;
    if i < n {
      assert forall k :: 0 <= k < n ==> args[..n][k] == args[k];
      ParametersBound(st, frame, params[..n], args[..n], i);
    }
  }

  /** Every name the call frame binds is a parameter name (the fresh frame
      starts empty). */
  lemma {:induction false} OnlyParametersBound(st: State, frame: nat, params: seq<Token>, args: seq<Value>, name: string)
    requires Good(st) && frame < |st.arena| && |params| == |args|
    requires forall k :: 0 <= k < |args| ==> ValueOk(st, args[k])
    requires st.arena[frame].vars == map[]
    requires name in DefineParameters(st, frame, params, args).arena[frame].vars
    ensures exists k :: 0 <= k < |params| && params[k].lexeme == name
    decreases |params|
  {
    var n := |params| - 1;
    if params[n].lexeme != name {
      assert forall k :: 0 <= k < n ==> args[..n][k] == args[k];
      OnlyParametersBound(st, frame, params[..n], args[..n], name);
      var k :| 0 <= k < n && params[..n][k].lexeme == name;
      assert params[k].lexeme == name;
    }
  }

  /** `get` from frame `env` only looks at `env` and older frames, so
      appending frames or changing newer ones does not change it. */
  lemma {:induction false} GetIgnoresNewerFrames(arena: seq<Frame>, grown: seq<Frame>, env: nat, name: Token)
    requires Linked(arena) && Linked(grown) && env < |arena| <= |grown|
    requires forall k :: 0 <= k <= env ==> grown[k] == arena[k]
    ensures Environment.Get(grown, env, name) == Environment.Get(arena, env, name)
    decreases env
  {
    if name.lexeme !in arena[env].vars && arena[env].parent.Some? {
      GetIgnoresNewerFrames(arena, grown, arena[env].parent.value, name);
    }
  }

  /** A variable declared at the head of a block lives in the block's own
      frame: the initializer is evaluated in that frame, the name is bound
      there and nowhere else, looking it up from the enclosing frame finds
      what it found before the declaration, and the rest of the block runs
      in the same frame. */
  lemma BlockDeclarationStaysInside(locals: map<nat, nat>, fuel: nat, st: State, env: nat, name: Token, init: Option<Expr>, rest: seq<Stmt>)
    requires Good(st) && env < |st.arena|
    ensures var n := |st.arena|;
      var st0 := PushFrame(st, env);
      var v := if init.Some? then Eval(locals, fuel, st0, n, init.value) else Evaluated(st0, Nil);
      var r := Exec(locals, fuel, st, env, Block([Var(name, init)] + rest));
      if v.Raised? then r == Aborted(v.st, v.signal)
      else
        var st1 := DefineIn(v.st, n, name.lexeme, v.value);
        && st1.arena[n].vars == v.st.arena[n].vars[name.lexeme := v.value]
        && (forall j :: 0 <= j < |st1.arena| && j != n ==> st1.arena[j] == v.st.arena[j])
        && Environment.Get(st1.arena, env, name) == Environment.Get(v.st.arena, env, name)
        && r == ExecStmts(locals, fuel, st1, n, rest)
  {
    var n := |st.arena|;
    var st0 := PushFrame(st, env);
    var body := [Var(name, init)] + rest;
    var r := Exec(locals, fuel, st, env, Block(body));
    assert r == ExecStmts(locals, fuel, st0, n, body);
    assert body[0] == Var(name, init) && body[1..] == rest;
    var v := if init.Some? then Eval(locals, fuel, st0, n, init.value) else Evaluated(st0, Nil);
    var h := Exec(locals, fuel, st0, n, Var(name, init));
    if v.Evaluated? {
      var st1 := DefineIn(v.st, n, name.lexeme, v.value);
      assert h == Completed(st1);
      GetIgnoresNewerFrames(v.st.arena, st1.arena, env, name);
    }
  }

  /** With the resolver's distance for a variable pointing at the nearest
      frame that binds it, the resolved lookup reads exactly what a dynamic
      `get` along the chain reads. */
  lemma ResolvedLookUpAgrees(locals: map<nat, nat>, st: State, env: nat, id: nat, name: Token)
    requires Good(st) && env < |st.arena|
    requires id in locals && Nearest(st.arena, env, name.lexeme, locals[id])
    ensures Environment.Get(st.arena, env, name).Success?
    ensures LookUp(locals, st, env, id, name) == Evaluated(st, Environment.Get(st.arena, env, name).value)
  {
    GetAtAgreesWithGet(st.arena, env, name, locals[id]);
  }

  /** A `return` unwinds the statement list: the statements after it never
      run, whatever they are. */
  lemma ReturnSkipsRest(locals: map<nat, nat>, fuel: nat, st: State, env: nat, keyword: Token, value: Option<Expr>, rest: seq<Stmt>, others: seq<Stmt>)
    requires Good(st) && env < |st.arena|
    ensures var r := ExecStmts(locals, fuel, st, env, [Return(keyword, value)] + rest);
      && !r.Completed?
      && r == ExecStmts(locals, fuel, st, env, [Return(keyword, value)] + others)
  {
    assert ([Return(keyword, value)] + rest)[0] == Return(keyword, value);
    assert ([Return(keyword, value)] + others)[0] == Return(keyword, value);
  }

  /** A function whose body completes without `return` yields nil, and
      `return;` yields nil too. */
  lemma EmptyReturnYieldsNil(locals: map<nat, nat>, fuel: nat, st: State, f: Value, args: seq<Value>, keyword: Token)
    requires Good(st) && ValueOk(st, f) && f.Function? && |args| == |f.decl.params|
    requires forall i :: 0 <= i < |args| ==> ValueOk(st, args[i])
    requires f.decl.body == [] || f.decl.body == [Return(keyword, None)]
    ensures Invoke(locals, fuel, st, f, args).Evaluated? && Invoke(locals, fuel, st, f, args).value == Nil
  {
    var st1 := CallFrame(st, f, args);
    var body := ExecStmts(locals, fuel, st1, |st.arena|, f.decl.body);
    if f.decl.body != [] {
      assert Exec(locals, fuel, st1, |st.arena|, f.decl.body[0]) == Returned(st1, Nil);
    }
    assert body.Completed? || (body.Returned? && body.value == Nil);
  }

  /** Calling a function whose body starts with `return e` is evaluating
      `e` in the call frame: its value becomes the call's value, and a
      signal it raises propagates from the call unchanged. The statements
      after the `return` never run. */
  lemma ReturnValueIsCallResult(locals: map<nat, nat>, fuel: nat, st: State, f: Value, args: seq<Value>, keyword: Token, e: Expr, rest: seq<Stmt>)
    requires Good(st) && ValueOk(st, f) && f.Function? && |args| == |f.decl.params|
    requires forall i :: 0 <= i < |args| ==> ValueOk(st, args[i])
    requires f.decl.body == [Return(keyword, Some(e))] + rest
    ensures Invoke(locals, fuel, st, f, args) == Eval(locals, fuel, CallFrame(st, f, args), |st.arena|, e)
  {
    var st1 := CallFrame(st, f, args);
    assert f.decl.body[0] == Return(keyword, Some(e));
    var v := Eval(locals, fuel, st1, |st.arena|, e);
    assert Exec(locals, fuel, st1, |st.arena|, f.decl.body[0]) == if v.Raised? then Aborted(v.st, v.signal) else Returned(v.st, v.value);
  }

  /** Evaluating the arguments `a + b` evaluates `a` first and then, from
      the state it leaves, `b`; the values come out in order, and a raise
      in `a` means no argument of `b` is evaluated. */
  lemma {:induction false} EvalArgsAppend(locals: map<nat, nat>, fuel: nat, st: State, env: nat, a: seq<Expr>, b: seq<Expr>)
    requires Good(st) && env < |st.arena|
    ensures ArgsSplit(locals, fuel, st, env, a, b)
    decreases |a|
  {
    if a == [] {
      assert a + b == b;
    } else {
      var first := Eval(locals, fuel, st, env, a[0]);
      if first.Evaluated? {
        EvalArgsAppend(locals, fuel, first.st, env, a[1..], b);
      }
      ArgsSplitCons(locals, fuel, st, env, a, b);
    }
  }

  /** Evaluating `a + b` is evaluating `a` and then, unless `a` raised,
      `b` from the state `a` left, with the values concatenated. */
  ghost predicate ArgsSplit(locals: map<nat, nat>, fuel: nat, st: State, env: nat, a: seq<Expr>, b: seq<Expr>)
    requires Good(st) && env < |st.arena|
  {
    var ra := EvalArgs(locals, fuel, st, env, a);
    EvalArgs(locals, fuel, st, env, a + b) ==
      if ra.ArgsRaised? then ra
      else match EvalArgs(locals, fuel, ra.st, env, b)
        case ArgsRaised(st2, s) => ArgsRaised(st2, s)
        case ArgsEvaluated(st2, vs) => ArgsEvaluated(st2, ra.values + vs)
  }

  /** `ArgsSplit` for a non-empty `a` from `ArgsSplit` for its tail in the
      state its first argument leaves. */
  lemma ArgsSplitCons(locals: map<nat, nat>, fuel: nat, st: State, env: nat, a: seq<Expr>, b: seq<Expr>)
    requires Good(st) && env < |st.arena| && a != []
    requires var first := Eval(locals, fuel, st, env, a[0]);
      first.Evaluated? ==> ArgsSplit(locals, fuel, first.st, env, a[1..], b)
    ensures ArgsSplit(locals, fuel, st, env, a, b)
  {
    var x, tail := a[0], a[1..];
    assert (a + b)[0] == x;
    assert (a + b)[1..] == tail + b;
    var first := Eval(locals, fuel, st, env, x);
    if first.Evaluated? {
      var ra := EvalArgs(locals, fuel, first.st, env, tail);
      if ra.ArgsEvaluated? {
        var rb := EvalArgs(locals, fuel, ra.st, env, b);
        if rb.ArgsEvaluated? {
          assert [first.value] + (ra.values + rb.values) == ([first.value] + ra.values) + rb.values;
        }
      }
    }
  }

  /** The arguments `[x] + rest`: `x` first, then `rest` from the state it
      leaves. */
  lemma EvalArgsCons(locals: map<nat, nat>, fuel: nat, st: State, env: nat, x: Expr, rest: seq<Expr>)
    requires Good(st) && env < |st.arena|
    ensures var first := Eval(locals, fuel, st, env, x);
      EvalArgs(locals, fuel, st, env, [x] + rest) ==
        if first.Raised? then ArgsRaised(first.st, first.signal)
        else match EvalArgs(locals, fuel, first.st, env, rest)
          case ArgsRaised(st2, s) => ArgsRaised(st2, s)
          case ArgsEvaluated(st2, vs) => ArgsEvaluated(st2, [first.value] + vs)
  {
    assert ([x] + rest)[0] == x;
    assert ([x] + rest)[1..] == rest;
  }

  /** Argument `i` of a call is evaluated in the state the arguments before
      it left behind, and its value is the `i`-th value passed to the
      call. */
  lemma EvalArgsNth(locals: map<nat, nat>, fuel: nat, st: State, env: nat, args: seq<Expr>, i: nat)
    requires Good(st) && env < |st.arena| && i < |args|
    requires EvalArgs(locals, fuel, st, env, args).ArgsEvaluated?
    ensures var pre := EvalArgs(locals, fuel, st, env, args[..i]);
      && pre.ArgsEvaluated?
      && pre.values == EvalArgs(locals, fuel, st, env, args).values[..i]
      && Eval(locals, fuel, pre.st, env, args[i]).Evaluated?
      && Eval(locals, fuel, pre.st, env, args[i]).value == EvalArgs(locals, fuel, st, env, args).values[i]
  {
    assert args == args[..i] + args[i..];
    EvalArgsAppend(locals, fuel, st, env, args[..i], args[i..]);
    assert args[i..][0] == args[i];
  }

  /** A `while` whose condition is falsy completes without running its
      body. */
  lemma WhileFalseSkipsBody(locals: map<nat, nat>, fuel: nat, st: State, env: nat, condition: Expr, body: Stmt)
    requires Good(st) && env < |st.arena|
    requires Eval(locals, fuel, st, env, condition).Evaluated?
    requires !IsTruthy(Eval(locals, fuel, st, env, condition).value)
    ensures Exec(locals, fuel, st, env, While(condition, body)) == Completed(Eval(locals, fuel, st, env, condition).st)
  {
    assert Exec(locals, fuel, st, env, While(condition, body)) == ExecWhile(locals, fuel, st, env, condition, body);
  }

  /** `interpret` over a concatenation runs the first part and, only if it
      finished, the second part from the state the first left behind. In
      particular the first reported error stops everything after it. */
  lemma {:induction false} InterpretAppend(locals: map<nat, nat>, fuel: nat, st: State, first: seq<Stmt>, second: seq<Stmt>)
    requires Good(st)
    ensures var a := InterpretFrom(locals, fuel, st, first);
      InterpretFrom(locals, fuel, st, first + second) ==
        if a.Finished? then InterpretFrom(locals, fuel, a.st, second) else a
    decreases |first|
  {
    if first == [] {
      assert first + second == second;
    } else {
      assert (first + second)[0] == first[0];
      assert (first + second)[1..] == first[1..] + second;
      match Exec(locals, fuel, st, 0, first[0])
      case Completed(st1) =>
        InterpretAppend(locals, fuel, st1, first[1..], second);
      case Returned(_, _) =>
      case Aborted(_, _) =>
    }
  }

  /** Two statement lists run in a row inside one frame: the second runs,
      from the state the first left, exactly when the first completed;
      otherwise the first's return or raise is the result. */
  lemma {:induction false} ExecStmtsAppend(locals: map<nat, nat>, fuel: nat, st: State, env: nat, first: seq<Stmt>, second: seq<Stmt>)
    requires Good(st) && env < |st.arena|
    ensures var a := ExecStmts(locals, fuel, st, env, first);
      ExecStmts(locals, fuel, st, env, first + second) ==
        if a.Completed? then ExecStmts(locals, fuel, a.st, env, second) else a
    decreases |first|
  {
    if first == [] {
      assert first + second == second;
    } else {
      assert (first + second)[0] == first[0];
      assert (first + second)[1..] == first[1..] + second;
      var h := Exec(locals, fuel, st, env, first[0]);
      if h.Completed? {
        ExecStmtsAppend(locals, fuel, h.st, env, first[1..], second);
      }
    }
  }

  /** The first statement that raises is reported and the statements after
      it never run. */
  lemma FirstErrorStops(locals: map<nat, nat>, fuel: nat, st: State, done: seq<Stmt>, failing: Stmt, rest: seq<Stmt>)
    requires Good(st)
    requires InterpretFrom(locals, fuel, st, done).Finished?
    requires Exec(locals, fuel, InterpretFrom(locals, fuel, st, done).st, 0, failing).Aborted?
    ensures var e := Exec(locals, fuel, InterpretFrom(locals, fuel, st, done).st, 0, failing);
      InterpretFrom(locals, fuel, st, done + [failing] + rest) == Reported(e.st, e.signal)
  {
    var mid := InterpretFrom(locals, fuel, st, done).st;
    InterpretAppend(locals, fuel, st, done, [failing] + rest);
    assert done + [failing] + rest == done + ([failing] + rest);
    assert ([failing] + rest)[0] == failing;
  }

  /** A fresh interpreter binds only `clock`, a native function of arity
      zero, in the global frame. */
  lemma InitialGlobals()
    ensures Good(Initial) && |Initial.arena| == 1 && Initial.arena[0].parent.None?
    ensures Initial.arena[0].vars.Keys == {"clock"} && Arity(Initial.arena[0].vars["clock"]) == 0
    ensures Initial.output == []
  {
  }
}
