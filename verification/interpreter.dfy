/** The tree-walking evaluator. The interpreter's mutable parts (the
    environment arena, the printed output and the counter that gives each
    function object its identity) are threaded through as a `State`; the
    current environment is a frame index passed down, so it is restored
    when a block or call returns by construction. Exceptions become explicit
    outcomes. `fuel` bounds loop iterations and call depth. */
module Interpreter {
  import opened Wrappers
  import opened Tokens
  import opened Ast
  import opened Values
  import opened Environment

  datatype State = State(arena: seq<Frame>, output: seq<Value>, nextId: nat)

  // Runtime error messages.
  const OperandsNotNumbers := "Operands must be numbers."
  const OperandsNotAddable := "Operands must be two numbers or two strings."
  const NotCallable := "Can only call functions and classes."
  const NoProperties := "Only instances have properties."
  const NoFields := "Only instances have fields."

  /** The interpreter as constructed: a global frame holding `clock`. */
  const Initial: State := State([Frame(map["clock" := Clock], None)], [], 0)

  /** A value refers only to existing frames and function identities. */
  predicate ValueOk(st: State, v: Value) {
    v.Function? ==> v.closure < |st.arena| && v.id < st.nextId
  }

  /** The state invariant: a global frame exists, every frame's enclosing
      frame is older, and every stored value is well-formed. */
  predicate Good(st: State) {
    && |st.arena| > 0
    && Linked(st.arena)
    && forall i, name :: 0 <= i < |st.arena| && name in st.arena[i].vars ==> ValueOk(st, st.arena[i].vars[name])
  }

  /** How a state may evolve: frames are only appended and never
      re-parented, output is only appended, and the identity counter only
      grows. */
  predicate Extends(st: State, after: State) {
    && |st.arena| <= |after.arena|
    && (forall i :: 0 <= i < |st.arena| ==> after.arena[i].parent == st.arena[i].parent)
    && st.output <= after.output
    && st.nextId <= after.nextId
  }

  /** The result of evaluating an expression: a value, or a raised signal
      (an exception unwinding). */
  datatype Evaluation = Evaluated(st: State, value: Value) | Raised(st: State, signal: Signal)

  /** The result of evaluating an argument list. */
  datatype Arguments = ArgsEvaluated(st: State, values: seq<Value>) | ArgsRaised(st: State, signal: Signal)

  /** The result of executing statements: normal completion, a `return`
      unwinding with its value, or a raised signal. */
  datatype Execution = Completed(st: State) | Returned(st: State, value: Value) | Aborted(st: State, signal: Signal)

  predicate EvalOk(st: State, r: Evaluation) {
    Good(r.st) && Extends(st, r.st) && (r.Evaluated? ==> ValueOk(r.st, r.value))
  }

  predicate ExecOk(st: State, r: Execution) {
    Good(r.st) && Extends(st, r.st) && (r.Returned? ==> ValueOk(r.st, r.value))
  }

  // ---------------------------------------------------------------------
  // Operators.

  /** `visitUnaryExpr` after the operand is evaluated. `-` on a non-number
      goes through JavaScript's `Number` coercion, which is not modelled. */
  function UnaryOp(op: Token, right: Value): (r: Result<Value, Signal>)
    ensures r.Success? ==> !r.value.Function?
    ensures op.kind == BANG ==> r == Success(Bool(!IsTruthy(right)))
    ensures op.kind == MINUS && right.Num? ==> r == Success(Num(-right.n))
    ensures r.Failure? ==> op.kind == MINUS && !right.Num? && r.error.Unsupported?
    ensures op.kind != BANG && op.kind != MINUS ==> r == Success(Nil)
  {
    match op.kind
    case BANG => Success(Bool(!IsTruthy(right)))
    case MINUS => if right.Num? then Success(Num(-right.n)) else Failure(Unsupported("JavaScript number coercion"))
    case _ => Success(Nil)
  }

  /** The error `checkNumberOperands` raises. */
  function NumberOperands(op: Token): Signal {
    RuntimeError(op, OperandsNotNumbers)
  }

  /** The arithmetic and comparison operators that take only numbers. */
  const NumericOperators: set<TokenType> := {GREATER, GREATER_EQUAL, LESS, LESS_EQUAL, MINUS, SLASH, STAR}

  /** `visitBinaryExpr` after both operands are evaluated. Division by zero
      produces an IEEE infinity or NaN, which is not modelled. */
  function BinaryOp(op: Token, left: Value, right: Value): (r: Result<Value, Signal>)
    ensures r.Success? ==> !r.value.Function?
    ensures op.kind in NumericOperators && !(left.Num? && right.Num?) ==> r == Failure(NumberOperands(op))
    ensures op.kind == PLUS ==>
      if left.Num? && right.Num? then r == Success(Num(left.n + right.n))
      else if left.Str? && right.Str? then r == Success(Str(left.s + right.s))
      else r == Failure(RuntimeError(op, OperandsNotAddable))
    ensures op.kind == EQUAL_EQUAL ==> r == Success(Bool(IsEqual(left, right)))
    ensures op.kind == BANG_EQUAL ==> r == Success(Bool(!IsEqual(left, right)))
    ensures r.Failure? && r.error.RuntimeError? ==> r.error.token == op
    ensures left.Num? && right.Num? ==>
      && (op.kind == GREATER ==> r == Success(Bool(left.n > right.n)))
      && (op.kind == GREATER_EQUAL ==> r == Success(Bool(left.n >= right.n)))
      && (op.kind == LESS ==> r == Success(Bool(left.n < right.n)))
      && (op.kind == LESS_EQUAL ==> r == Success(Bool(left.n <= right.n)))
      && (op.kind == MINUS ==> r == Success(Num(left.n - right.n)))
      && (op.kind == STAR ==> r == Success(Num(left.n * right.n)))
      && (op.kind == SLASH && right.n != 0.0 ==> r == Success(Num(left.n / right.n)))
      && (op.kind == SLASH && right.n == 0.0 ==> r.Failure? && r.error.Unsupported?)
  {
    match op.kind
    case GREATER => if left.Num? && right.Num? then Success(Bool(left.n > right.n)) else Failure(NumberOperands(op))
    case GREATER_EQUAL => if left.Num? && right.Num? then Success(Bool(left.n >= right.n)) else Failure(NumberOperands(op))
    case LESS => if left.Num? && right.Num? then Success(Bool(left.n < right.n)) else Failure(NumberOperands(op))
    case LESS_EQUAL => if left.Num? && right.Num? then Success(Bool(left.n <= right.n)) else Failure(NumberOperands(op))
    case MINUS => if left.Num? && right.Num? then Success(Num(left.n - right.n)) else Failure(NumberOperands(op))
    case PLUS =>
      if left.Num? && right.Num? then Success(Num(left.n + right.n))
      else if left.Str? && right.Str? then Success(Str(left.s + right.s))
      else Failure(RuntimeError(op, OperandsNotAddable))
    case SLASH =>
      if !(left.Num? && right.Num?) then Failure(NumberOperands(op))
      else if right.n == 0.0 then Failure(Unsupported("division by zero"))
      else Success(Num(left.n / right.n))
    case STAR => if left.Num? && right.Num? then Success(Num(left.n * right.n)) else Failure(NumberOperands(op))
    case BANG_EQUAL => Success(Bool(!IsEqual(left, right)))
    case EQUAL_EQUAL => Success(Bool(IsEqual(left, right)))
    case _ => Success(Nil)
  }

  /** The checks `visitCallExpr` makes once the callee and arguments are
      evaluated: calling a property of nil is a JavaScript TypeError, a
      value without `call` is the language's error, and the argument count
      must match the arity. Calling `clock` reads the wall clock, which is
      not modelled. */
  function CallError(callee: Value, count: nat, paren: Token): (r: Option<Signal>)
    ensures r.None? <==> callee.Function? && count == |callee.decl.params|
    ensures !callee.Nil? && !IsCallable(callee) ==> r == Some(RuntimeError(paren, NotCallable))
    ensures IsCallable(callee) && count != Arity(callee) ==>
      r == Some(RuntimeError(paren, "Expected " + NatToString(Arity(callee)) + " args but got " + NatToString(count) + "."))
  {
    if callee.Nil? then Some(HostError("Cannot read properties of null (reading 'call')"))
    else if !IsCallable(callee) then Some(RuntimeError(paren, NotCallable))
    else if count != Arity(callee) then
      Some(RuntimeError(paren, "Expected " + NatToString(Arity(callee)) + " args but got " + NatToString(count) + "."))
    else if callee.Clock? then Some(Unsupported("clock reads the wall clock"))
    else None
  }

  // ---------------------------------------------------------------------
  // State helpers.

  /** `define` in frame `env`, keeping the invariant. */
  function DefineIn(st: State, env: nat, name: string, v: Value): (after: State)
    requires Good(st) && env < |st.arena| && ValueOk(st, v)
    ensures Good(after) && Extends(st, after) && |after.arena| == |st.arena|
    ensures after.arena == Define(st.arena, env, name, v) && after.output == st.output && after.nextId == st.nextId
  {
    st.(arena := Define(st.arena, env, name, v))
  }

  /** A fresh, empty frame whose enclosing frame is `parent`: `new
      Environment(parent)`. */
  function PushFrame(st: State, parent: nat): (after: State)
    requires Good(st) && parent < |st.arena|
    ensures Good(after) && Extends(st, after) && |after.arena| == |st.arena| + 1
    ensures after.arena[|st.arena|] == Frame(map[], Some(parent))
    ensures after.output == st.output && after.nextId == st.nextId
  {
    var after := st.(arena := st.arena + [Frame(map[], Some(parent))]);
    assert forall i :: 0 <= i < |st.arena| ==> after.arena[i] == st.arena[i];
    after
  }

  /** The parameter loop of `call`: `define` each parameter in turn, in the
      call frame `frame`, to the argument in the same position. */
  function DefineParameters(st: State, frame: nat, params: seq<Token>, args: seq<Value>): (after: State)
    requires Good(st) && frame < |st.arena| && |params| == |args|
    requires forall i :: 0 <= i < |args| ==> ValueOk(st, args[i])
    ensures Good(after) && Extends(st, after) && |after.arena| == |st.arena|
    ensures after.output == st.output && after.nextId == st.nextId
    ensures after.arena[frame].parent == st.arena[frame].parent
    ensures forall j :: 0 <= j < |st.arena| && j != frame ==> after.arena[j] == st.arena[j]
    decreases |params|
  {
    if params == [] then st
    else
      var n := |params| - 1;
      assert forall i :: 0 <= i < n ==> args[..n][i] == args[i];
      var st1 := DefineParameters(st, frame, params[..n], args[..n]);
      assert ValueOk(st1, args[n]) by { assert ValueOk(st, args[n]); }
      DefineIn(st1, frame, params[n].lexeme, args[n])
  }

  /** Binding a value that is well-formed keeps the invariant. */
  lemma BindKeepsGood(st: State, k: nat, name: string, v: Value)
    requires Good(st) && k < |st.arena| && ValueOk(st, v)
    ensures Good(st.(arena := Bind(st.arena, k, name, v)))
  {
    var after := st.(arena := Bind(st.arena, k, name, v));
    forall i, n | 0 <= i < |after.arena| && n in after.arena[i].vars
      ensures ValueOk(after, after.arena[i].vars[n])
    {
      if i == k && n == name {
      } else {
        assert after.arena[i].vars[n] == st.arena[i].vars[n];
      }
    }
  }

  // ---------------------------------------------------------------------
  // Expressions.

  /** `evaluate`. */
  function Eval(locals: map<nat, nat>, fuel: nat, st: State, env: nat, e: Expr): (r: Evaluation)
    requires Good(st) && env < |st.arena|
    ensures EvalOk(st, r)
    ensures e.Literal? ==> r == Evaluated(st, LiteralValueOf(e.literal))
    ensures e.Grouping? ==> r == Eval(locals, fuel, st, env, e.expression)
    ensures e.Get? ==> var o := Eval(locals, fuel, st, env, e.obj);
      r == if o.Raised? then o else Raised(o.st, RuntimeError(e.name, NoProperties))
    ensures e.Sett? ==> var o := Eval(locals, fuel, st, env, e.obj);
      r == if o.Raised? then o else Raised(o.st, RuntimeError(e.name, NoFields))
    ensures e.Super? ==> r.Raised? && r.st == st
    decreases fuel, e, 2
  {
    match e
    case Literal(lit) => Evaluated(st, LiteralValueOf(lit))
    case Grouping(inner) => Eval(locals, fuel, st, env, inner)
    case Unary(op, right) =>
      (match Eval(locals, fuel, st, env, right)
       case Raised(st1, s) => Raised(st1, s)
       case Evaluated(st1, v) => Lift(st1, UnaryOp(op, v)))
    case Binary(left, op, right) => EvalBinary(locals, fuel, st, env, left, op, right)
    case Logical(left, op, right) => EvalLogical(locals, fuel, st, env, left, op, right)
    case Variable(id, name) => LookUp(locals, st, env, id, name)
    case This(id, keyword) => LookUp(locals, st, env, id, keyword)
    case Assign(id, name, value) => EvalAssign(locals, fuel, st, env, id, name, value)
    case Call(callee, paren, args) => EvalCall(locals, fuel, st, env, callee, paren, args)
    case Get(obj, name) =>
      (match Eval(locals, fuel, st, env, obj)
       case Raised(st1, s) => Raised(st1, s)
       case Evaluated(st1, _) => Raised(st1, RuntimeError(name, NoProperties)))
    case Sett(obj, name, _) =>
      (match Eval(locals, fuel, st, env, obj)
       case Raised(st1, s) => Raised(st1, s)
       case Evaluated(st1, _) => Raised(st1, RuntimeError(name, NoFields)))
    case Super(_, _) => Raised(st, HostError("visitSuperExpr is not a function"))
  }

  /** A pure operator result as an evaluation in state `st`. */
  function Lift(st: State, r: Result<Value, Signal>): (e: Evaluation)
    requires Good(st) && (r.Success? ==> !r.value.Function?)
    ensures EvalOk(st, e)
    ensures r.Success? ==> e == Evaluated(st, r.value)
    ensures r.Failure? ==> e == Raised(st, r.error)
  {
    match r
    case Success(v) => Evaluated(st, v)
    case Failure(s) => Raised(st, s)
  }

  /** `visitBinaryExpr`: both operands are evaluated, left first, before
      the operator looks at them. */
  function EvalBinary(locals: map<nat, nat>, fuel: nat, st: State, env: nat, left: Expr, op: Token, right: Expr): (r: Evaluation)
    requires Good(st) && env < |st.arena|
    ensures EvalOk(st, r)
    ensures var l := Eval(locals, fuel, st, env, left);
      && (l.Raised? ==> r == l)
      && (l.Evaluated? ==>
            var rr := Eval(locals, fuel, l.st, env, right);
            && (rr.Raised? ==> r == rr)
            && (rr.Evaluated? ==> r == Lift(rr.st, BinaryOp(op, l.value, rr.value))))
    decreases fuel, Binary(left, op, right), 1
  {
    match Eval(locals, fuel, st, env, left)
    case Raised(st1, s) => Raised(st1, s)
    case Evaluated(st1, lv) =>
      match Eval(locals, fuel, st1, env, right)
      case Raised(st2, s) => Raised(st2, s)
      case Evaluated(st2, rv) => Lift(st2, BinaryOp(op, lv, rv))
  }

  /** `visitLogicalExpr`: `or` yields a truthy left operand and `and` a
      falsy one without evaluating the right; otherwise the result is the
      right operand's value. */
  function EvalLogical(locals: map<nat, nat>, fuel: nat, st: State, env: nat, left: Expr, op: Token, right: Expr): (r: Evaluation)
    requires Good(st) && env < |st.arena|
    ensures EvalOk(st, r)
    decreases fuel, Logical(left, op, right), 1
  {
    match Eval(locals, fuel, st, env, left)
    case Raised(st1, s) => Raised(st1, s)
    case Evaluated(st1, lv) =>
      if (op.kind == OR) == IsTruthy(lv) then Evaluated(st1, lv)
      else Eval(locals, fuel, st1, env, right)
  }

  /** `lookUpVariable`: `getAt` at the distance the resolver recorded for
      this node, or `get` on the global frame when it recorded none. */
  function LookUp(locals: map<nat, nat>, st: State, env: nat, id: nat, name: Token): (r: Evaluation)
    requires Good(st) && env < |st.arena|
    ensures EvalOk(st, r) && r.st == st
    ensures id in locals ==> r == Evaluated(st, GetAt(st.arena, env, locals[id], name.lexeme))
    ensures id !in locals ==> match Environment.Get(st.arena, 0, name)
      case Success(v) => r == Evaluated(st, v)
      case Failure(s) => r == Raised(st, s)
  {
    if id in locals then Evaluated(st, GetAt(st.arena, env, locals[id], name.lexeme))
    else
      match Environment.Get(st.arena, 0, name)
      case Success(v) => GetFoundOk(st, 0, name); Evaluated(st, v)
      case Failure(s) => Raised(st, s)
  }

  /** A value `get` finds is well-formed. */
  lemma {:induction false} GetFoundOk(st: State, env: nat, name: Token)
    requires Good(st) && env < |st.arena|
    ensures Environment.Get(st.arena, env, name).Success? ==> ValueOk(st, Environment.Get(st.arena, env, name).value)
    decreases env
  {
    if name.lexeme !in st.arena[env].vars && st.arena[env].parent.Some? {
      GetFoundOk(st, st.arena[env].parent.value, name);
    }
  }

  /** `visitAssignExpr`: the value is evaluated first, then stored with
      `assignAt` at the recorded distance or `assign` on the global frame;
      the assignment evaluates to the value. */
  function EvalAssign(locals: map<nat, nat>, fuel: nat, st: State, env: nat, id: nat, name: Token, value: Expr): (r: Evaluation)
    requires Good(st) && env < |st.arena|
    ensures EvalOk(st, r)
    ensures var v := Eval(locals, fuel, st, env, value);
      && (v.Raised? ==> r == v)
      && (v.Evaluated? && id in locals ==>
            r == Evaluated(v.st.(arena := AssignAt(v.st.arena, env, locals[id], name, v.value)), v.value))
      && (v.Evaluated? && id !in locals ==>
            if Unbound(v.st.arena, 0, name.lexeme) then r == Raised(v.st, UndefinedVariable(name))
            else r == Evaluated(v.st.(arena := Environment.Assign(v.st.arena, 0, name, v.value).value), v.value))
    ensures r.Evaluated? && id in locals && Ancestor(st.arena, env, locals[id]).Some? ==>
      GetAt(r.st.arena, env, locals[id], name.lexeme) == r.value
    ensures r.Evaluated? && id !in locals ==> Environment.Get(r.st.arena, 0, name) == Success(r.value)
    decreases fuel, Expr.Assign(id, name, value), 1
  {
    match Eval(locals, fuel, st, env, value)
    case Raised(st1, s) => Raised(st1, s)
    case Evaluated(st1, v) =>
      if id in locals then
        AssignAtKeepsGood(st1, env, locals[id], name, v);
        GetAtAfterAssignAt(st, st1, env, locals[id], name, v);
        Evaluated(st1.(arena := AssignAt(st1.arena, env, locals[id], name, v)), v)
      else
        AssignUnbound(st1.arena, 0, name, v);
        match Environment.Assign(st1.arena, 0, name, v)
        case Failure(s) => Raised(st1, s)
        case Success(arena) =>
          AssignKeepsGood(st1, 0, name, v);
          GetAfterAssign(st1.arena, 0, name, v);
          Evaluated(st1.(arena := arena), v)
  }

  /** Reading back at the distance just assigned gives the stored value:
      the frames a state extends with keep their chain, so the ancestor
      still exists. */
  lemma GetAtAfterAssignAt(st: State, st1: State, env: nat, d: nat, name: Token, v: Value)
    requires Good(st) && Good(st1) && Extends(st, st1) && env < |st.arena|
    ensures Ancestor(st.arena, env, d).Some? ==> GetAt(AssignAt(st1.arena, env, d, name, v), env, d, name.lexeme) == v
  {
    AncestorExtends(st, st1, env, d);
    var arena := AssignAt(st1.arena, env, d, name, v);
    AncestorSameParents(st1.arena, arena, env, d);
  }

  /** Ancestors are found through parent links only, so a state that
      extends another has the same ancestors for the older frames. */
  lemma {:induction false} AncestorExtends(st: State, st1: State, env: nat, d: nat)
    requires Good(st) && Good(st1) && Extends(st, st1) && env < |st.arena|
    ensures Ancestor(st1.arena, env, d) == Ancestor(st.arena, env, d)
    decreases d
  {
    if d > 0 && st.arena[env].parent.Some? {
      AncestorExtends(st, st1, st.arena[env].parent.value, d - 1);
    }
  }

  /** Two arenas with the same parent links have the same ancestors. */
  lemma {:induction false} AncestorSameParents(a: seq<Frame>, b: seq<Frame>, env: nat, d: nat)
    requires Linked(a) && Linked(b) && |a| == |b| && env < |a|
    requires forall i :: 0 <= i < |a| ==> a[i].parent == b[i].parent
    ensures Ancestor(a, env, d) == Ancestor(b, env, d)
    decreases d
  {
    if d > 0 && a[env].parent.Some? {
      AncestorSameParents(a, b, a[env].parent.value, d - 1);
    }
  }

  /** After a successful `assign`, `get` of the same name finds the new
      value. */
  lemma {:induction false} GetAfterAssign(arena: seq<Frame>, env: nat, name: Token, v: Value)
    requires Linked(arena) && env < |arena|
    ensures Environment.Assign(arena, env, name, v).Success? ==>
      Environment.Get(Environment.Assign(arena, env, name, v).value, env, name) == Success(v)
    decreases env
  {
    if name.lexeme !in arena[env].vars && arena[env].parent.Some? {
      var p := arena[env].parent.value;
      GetAfterAssign(arena, p, name, v);
      if Environment.Assign(arena, env, name, v).Success? {
        var after := Environment.Assign(arena, env, name, v).value;
        assert after == Environment.Assign(arena, p, name, v).value;
        AssignKeepsFrame(arena, p, name, v, env);
      }
    }
  }

  /** `assign` started at `env`'s parent leaves `env`'s own frame alone,
      since frames only point at older ones. */
  lemma {:induction false} AssignKeepsFrame(arena: seq<Frame>, env: nat, name: Token, v: Value, k: nat)
    requires Linked(arena) && env < k < |arena|
    ensures Environment.Assign(arena, env, name, v).Success? ==> Environment.Assign(arena, env, name, v).value[k] == arena[k]
    decreases env
  {
    if name.lexeme !in arena[env].vars && arena[env].parent.Some? {
      AssignKeepsFrame(arena, arena[env].parent.value, name, v, k);
    }
  }

  lemma AssignAtKeepsGood(st: State, env: nat, d: nat, name: Token, v: Value)
    requires Good(st) && env < |st.arena| && ValueOk(st, v)
    ensures Good(st.(arena := AssignAt(st.arena, env, d, name, v)))
  {
    if Ancestor(st.arena, env, d).Some? {
      BindKeepsGood(st, Ancestor(st.arena, env, d).value, name.lexeme, v);
    }
  }

  lemma {:induction false} AssignKeepsGood(st: State, env: nat, name: Token, v: Value)
    requires Good(st) && env < |st.arena| && ValueOk(st, v)
    ensures Environment.Assign(st.arena, env, name, v).Success? ==> Good(st.(arena := Environment.Assign(st.arena, env, name, v).value))
    ensures Environment.Assign(st.arena, env, name, v).Success? ==>
      forall i :: 0 <= i < |st.arena| ==> Environment.Assign(st.arena, env, name, v).value[i].parent == st.arena[i].parent
    decreases env
  {
    if name.lexeme in st.arena[env].vars {
      BindKeepsGood(st, env, name.lexeme, v);
    } else if st.arena[env].parent.Some? {
      AssignKeepsGood(st, st.arena[env].parent.value, name, v);
    }
  }

  /** `visitCallExpr`: the callee, then the arguments left to right, then
      the checks of `CallError`, then the call itself. */
  function EvalCall(locals: map<nat, nat>, fuel: nat, st: State, env: nat, callee: Expr, paren: Token, args: seq<Expr>): (r: Evaluation)
    requires Good(st) && env < |st.arena|
    ensures EvalOk(st, r)
    ensures var f := Eval(locals, fuel, st, env, callee);
      && (f.Raised? ==> r == f)
      && (f.Evaluated? ==>
            var a := EvalArgs(locals, fuel, f.st, env, args);
            && (a.ArgsRaised? ==> r == Raised(a.st, a.signal))
            && (a.ArgsEvaluated? && CallError(f.value, |a.values|, paren).Some? ==>
                  r == Raised(a.st, CallError(f.value, |a.values|, paren).value))
            && (a.ArgsEvaluated? && CallError(f.value, |a.values|, paren).None? && fuel > 0 ==>
                  r == Invoke(locals, fuel - 1, a.st, f.value, a.values)))
    decreases fuel, Call(callee, paren, args), 1
  {
    var f := Eval(locals, fuel, st, env, callee);
    if f.Raised? then f
    else
      var a := EvalArgs(locals, fuel, f.st, env, args);
      if a.ArgsRaised? then Raised(a.st, a.signal)
      else
        var error := CallError(f.value, |a.values|, paren);
        if error.Some? then Raised(a.st, error.value)
        else if fuel == 0 then Raised(a.st, OutOfFuel)
        else Invoke(locals, fuel - 1, a.st, f.value, a.values)
  }

  /** The arguments of a call, left to right; the first raise stops the
      rest. */
  function EvalArgs(locals: map<nat, nat>, fuel: nat, st: State, env: nat, args: seq<Expr>): (r: Arguments)
    requires Good(st) && env < |st.arena|
    ensures Good(r.st) && Extends(st, r.st)
    ensures r.ArgsEvaluated? ==> |r.values| == |args| && forall i :: 0 <= i < |args| ==> ValueOk(r.st, r.values[i])
    ensures args == [] ==> r == ArgsEvaluated(st, [])
    decreases fuel, args, 0
  {
    if args == [] then ArgsEvaluated(st, [])
    else
      match Eval(locals, fuel, st, env, args[0])
      case Raised(st1, s) => ArgsRaised(st1, s)
      case Evaluated(st1, v) =>
        match EvalArgs(locals, fuel, st1, env, args[1..])
        case ArgsRaised(st2, s) => ArgsRaised(st2, s)
        case ArgsEvaluated(st2, vs) => ArgsEvaluated(st2, [v] + vs)
  }

  /** `LoxFunction.call`: a fresh frame whose enclosing frame is the
      closure, not the caller's environment, with the parameters bound to
      the arguments; the body runs directly in it. A return signal's value
      is the result, a body that completes yields undefined (nil), and any
      other signal propagates unchanged. */
  function Invoke(locals: map<nat, nat>, fuel: nat, st: State, f: Value, args: seq<Value>): (r: Evaluation)
    requires Good(st) && ValueOk(st, f) && f.Function? && |args| == |f.decl.params|
    requires forall i :: 0 <= i < |args| ==> ValueOk(st, args[i])
    ensures EvalOk(st, r)
    ensures |r.st.arena| > |st.arena| && r.st.arena[|st.arena|].parent == Some(f.closure)
    ensures match ExecStmts(locals, fuel, CallFrame(st, f, args), |st.arena|, f.decl.body)
      case Returned(st2, v) => r == Evaluated(st2, v)
      case Aborted(st2, s) => r == Raised(st2, s)
      case Completed(st2) => r == Evaluated(st2, Nil)
    decreases fuel, f.decl.body, 1
  {
    match ExecStmts(locals, fuel, CallFrame(st, f, args), |st.arena|, f.decl.body)
    case Completed(st2) => Evaluated(st2, Nil)
    case Returned(st2, v) => Evaluated(st2, v)
    case Aborted(st2, s) => Raised(st2, s)
  }

  /** The environment a call's body runs in: a fresh frame enclosed by the
      closure, holding the parameters bound to the arguments. */
  function CallFrame(st: State, f: Value, args: seq<Value>): (after: State)
    requires Good(st) && ValueOk(st, f) && f.Function? && |args| == |f.decl.params|
    requires forall i :: 0 <= i < |args| ==> ValueOk(st, args[i])
    ensures Good(after) && Extends(st, after) && |after.arena| == |st.arena| + 1
    ensures after.arena[|st.arena|].parent == Some(f.closure)
    ensures forall j :: 0 <= j < |st.arena| ==> after.arena[j] == st.arena[j]
    ensures after.output == st.output && after.nextId == st.nextId
  {
    var st0 := PushFrame(st, f.closure);
    assert forall i :: 0 <= i < |args| ==> ValueOk(st0, args[i]) by {
      forall i | 0 <= i < |args| ensures ValueOk(st0, args[i]) { assert ValueOk(st, args[i]); }
    }
    DefineParameters(st0, |st.arena|, f.decl.params, args)
  }

  // ---------------------------------------------------------------------
  // Statements.

  /** `execute`. */
  function Exec(locals: map<nat, nat>, fuel: nat, st: State, env: nat, s: Stmt): (r: Execution)
    requires Good(st) && env < |st.arena|
    ensures ExecOk(st, r)
    ensures s.Expression? ==> var v := Eval(locals, fuel, st, env, s.expression);
      r == if v.Raised? then Aborted(v.st, v.signal) else Completed(v.st)
    ensures s.Print? ==> var v := Eval(locals, fuel, st, env, s.expression);
      r == if v.Raised? then Aborted(v.st, v.signal) else Completed(v.st.(output := v.st.output + [v.value]))
    ensures s.Return? && s.value.None? ==> r == Returned(st, Nil)
    ensures s.Return? && s.value.Some? ==> var v := Eval(locals, fuel, st, env, s.value.value);
      r == if v.Raised? then Aborted(v.st, v.signal) else Returned(v.st, v.value)
    ensures s.Fun? ==>
      && r.Completed? && r.st.nextId == st.nextId + 1 && r.st.output == st.output
      && r.st.arena == Define(st.arena, env, s.decl.name.lexeme, Function(st.nextId, s.decl, env))
    ensures s.Class? ==> r.Aborted? && r.st == st && r.signal.Unsupported?
    decreases fuel, s, 2
  {
    match s
    case Expression(e) =>
      (match Eval(locals, fuel, st, env, e)
       case Raised(st1, sig) => Aborted(st1, sig)
       case Evaluated(st1, _) => Completed(st1))
    case Print(e) =>
      (match Eval(locals, fuel, st, env, e)
       case Raised(st1, sig) => Aborted(st1, sig)
       case Evaluated(st1, v) => Completed(st1.(output := st1.output + [v])))
    case Var(name, initializer) => ExecVar(locals, fuel, st, env, name, initializer)
    case Block(statements) => ExecBlock(locals, fuel, st, env, statements)
    case If(condition, thenBranch, elseBranch) => ExecIf(locals, fuel, st, env, condition, thenBranch, elseBranch)
    case While(condition, body) => ExecWhile(locals, fuel, st, env, condition, body)
    case Fun(decl) =>
      var f := Function(st.nextId, decl, env);
      Completed(DefineIn(st.(nextId := st.nextId + 1), env, decl.name.lexeme, f))
    case Return(_, value) =>
      (match value
       case None => Returned(st, Nil)
       case Some(e) =>
         match Eval(locals, fuel, st, env, e)
         case Raised(st1, sig) => Aborted(st1, sig)
         case Evaluated(st1, v) => Returned(st1, v))
    case Class(_, _) => Aborted(st, Unsupported("classes"))
  }

  /** `visitVarStmt`: the initializer's value, or nil without one, defined
      in the current frame. */
  function ExecVar(locals: map<nat, nat>, fuel: nat, st: State, env: nat, name: Token, initializer: Option<Expr>): (r: Execution)
    requires Good(st) && env < |st.arena|
    ensures ExecOk(st, r)
    ensures initializer.None? ==> r == Completed(DefineIn(st, env, name.lexeme, Nil))
    ensures initializer.Some? ==> var v := Eval(locals, fuel, st, env, initializer.value);
      r == if v.Raised? then Aborted(v.st, v.signal) else Completed(DefineIn(v.st, env, name.lexeme, v.value))
    decreases fuel, Var(name, initializer), 1
  {
    match initializer
    case None => Completed(DefineIn(st, env, name.lexeme, Nil))
    case Some(e) =>
      match Eval(locals, fuel, st, env, e)
      case Raised(st1, sig) => Aborted(st1, sig)
      case Evaluated(st1, v) => Completed(DefineIn(st1, env, name.lexeme, v))
  }

  /** `visitBlockStmt`: the statements run in a fresh child of the current
      frame. */
  function ExecBlock(locals: map<nat, nat>, fuel: nat, st: State, env: nat, statements: seq<Stmt>): (r: Execution)
    requires Good(st) && env < |st.arena|
    ensures ExecOk(st, r)
    ensures |r.st.arena| > |st.arena| && r.st.arena[|st.arena|].parent == Some(env)
    ensures r == ExecStmts(locals, fuel, PushFrame(st, env), |st.arena|, statements)
    decreases fuel, Block(statements), 1
  {
    ExecStmts(locals, fuel, PushFrame(st, env), |st.arena|, statements)
  }

  /** `visitIfStmt`. */
  function ExecIf(locals: map<nat, nat>, fuel: nat, st: State, env: nat, condition: Expr, thenBranch: Stmt, elseBranch: Option<Stmt>): (r: Execution)
    requires Good(st) && env < |st.arena|
    ensures ExecOk(st, r)
    ensures var c := Eval(locals, fuel, st, env, condition);
      && (c.Raised? ==> r == Aborted(c.st, c.signal))
      && (c.Evaluated? && IsTruthy(c.value) ==> r == Exec(locals, fuel, c.st, env, thenBranch))
      && (c.Evaluated? && !IsTruthy(c.value) && elseBranch.Some? ==> r == Exec(locals, fuel, c.st, env, elseBranch.value))
      && (c.Evaluated? && !IsTruthy(c.value) && elseBranch.None? ==> r == Completed(c.st))
    decreases fuel, If(condition, thenBranch, elseBranch), 1
  {
    match Eval(locals, fuel, st, env, condition)
    case Raised(st1, sig) => Aborted(st1, sig)
    case Evaluated(st1, v) =>
      if IsTruthy(v) then Exec(locals, fuel, st1, env, thenBranch)
      else if elseBranch.Some? then Exec(locals, fuel, st1, env, elseBranch.value)
      else Completed(st1)
  }

  /** `visitWhileStmt`: the condition is evaluated before every iteration;
      each further iteration costs one unit of fuel. */
  function ExecWhile(locals: map<nat, nat>, fuel: nat, st: State, env: nat, condition: Expr, body: Stmt): (r: Execution)
    requires Good(st) && env < |st.arena|
    ensures ExecOk(st, r)
    ensures var c := Eval(locals, fuel, st, env, condition);
      && (c.Raised? ==> r == Aborted(c.st, c.signal))
      && (c.Evaluated? && !IsTruthy(c.value) ==> r == Completed(c.st))
      && (c.Evaluated? && IsTruthy(c.value) ==>
            var b := Exec(locals, fuel, c.st, env, body);
            && (!b.Completed? ==> r == b)
            && (b.Completed? && fuel > 0 ==> r == ExecWhile(locals, fuel - 1, b.st, env, condition, body))
            && (b.Completed? && fuel == 0 ==> r == Aborted(b.st, OutOfFuel)))
    decreases fuel, While(condition, body), 1
  {
    match Eval(locals, fuel, st, env, condition)
    case Raised(st1, sig) => Aborted(st1, sig)
    case Evaluated(st1, v) =>
      if !IsTruthy(v) then Completed(st1)
      else
        match Exec(locals, fuel, st1, env, body)
        case Completed(st2) =>
          if fuel == 0 then Aborted(st2, OutOfFuel)
          else ExecWhile(locals, fuel - 1, st2, env, condition, body)
        case other => other
  }

  /** The statement loop of `executeBlock`: statements in order until one
      returns or raises. */
  function ExecStmts(locals: map<nat, nat>, fuel: nat, st: State, env: nat, statements: seq<Stmt>): (r: Execution)
    requires Good(st) && env < |st.arena|
    ensures ExecOk(st, r)
    ensures statements == [] ==> r == Completed(st)
    decreases fuel, statements, 0
  {
    if statements == [] then Completed(st)
    else
      match Exec(locals, fuel, st, env, statements[0])
      case Completed(st1) => ExecStmts(locals, fuel, st1, env, statements[1..])
      case other => other
  }

  // ---------------------------------------------------------------------
  // The entry point.

  /** How `interpret` ends: every statement ran, a signal was reported
      (which stops the remaining statements), or a stray return signal was
      re-thrown out of it. */
  datatype Outcome = Finished(st: State) | Reported(st: State, signal: Signal) | Escaped(st: State, value: Value)

  /** `interpret`: the statements in order in the global frame of a fresh
      interpreter. */
  function Interpret(locals: map<nat, nat>, fuel: nat, statements: seq<Stmt>): (r: Outcome)
    ensures Good(r.st) && Extends(Initial, r.st)
  {
    InterpretFrom(locals, fuel, Initial, statements)
  }

  /** The loop of `interpret`. */
  function InterpretFrom(locals: map<nat, nat>, fuel: nat, st: State, statements: seq<Stmt>): (r: Outcome)
    requires Good(st)
    ensures Good(r.st) && Extends(st, r.st)
    decreases |statements|
  {
    if statements == [] then Finished(st)
    else
      match Exec(locals, fuel, st, 0, statements[0])
      case Completed(st1) => InterpretFrom(locals, fuel, st1, statements[1..])
      case Returned(st1, v) => Escaped(st1, v)
      case Aborted(st1, s) => Reported(st1, s)
  }
}
