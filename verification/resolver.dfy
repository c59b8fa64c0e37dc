/** The static resolver: a stack of scopes mapping names to "defined yet",
    the kind of function being resolved, the table of lexical distances it
    hands to the interpreter (keyed by node id), and the errors it reports.
    Reporting an error does not stop resolution. A node the resolver has no
    visitor for (classes, property access, `this`, `super`) is a JavaScript
    TypeError that abandons resolution; it is the `Failure` case. */
module Resolver {
  import opened Wrappers
  import opened Tokens
  import opened Ast

  datatype FunctionType = NONE | FUNCTION

  datatype RState = RState(scopes: seq<map<string, bool>>, current: FunctionType, locals: map<nat, nat>, diags: seq<Diag>)

  type Resolution = Result<RState, string>

  /** The resolver as constructed: no scope (global scope), outside any
      function, nothing recorded. */
  const Start: RState := RState([], NONE, map[], [])

  /** An expression leaves the scopes and function kind alone; errors and
      recorded distances only accumulate. */
  predicate ExprPreserves(st: RState, after: RState) {
    && after.scopes == st.scopes
    && after.current == st.current
    && st.diags <= after.diags
    && st.locals.Keys <= after.locals.Keys
  }

  /** A statement keeps the scope depth and function kind, changes at most
      the innermost scope, and only accumulates errors and distances. */
  predicate StmtPreserves(st: RState, after: RState) {
    && |after.scopes| == |st.scopes|
    && (forall k :: 0 <= k < |st.scopes| - 1 ==> after.scopes[k] == st.scopes[k])
    && after.current == st.current
    && st.diags <= after.diags
    && st.locals.Keys <= after.locals.Keys
  }

  /** The error `errorWithToken` records. */
  function Report(st: RState, token: Token, message: string): (after: RState)
    ensures after.diags == st.diags + [TokenError(token, message)]
    ensures after.scopes == st.scopes && after.current == st.current && after.locals == st.locals
  {
    st.(diags := st.diags + [TokenError(token, message)])
  }

  // ---------------------------------------------------------------------
  // Scope operations.

  /** `beginScope`: pushes an empty scope. */
  function BeginScope(st: RState): (after: RState)
    ensures after.scopes == st.scopes + [map[]]
    ensures after.current == st.current && after.locals == st.locals && after.diags == st.diags
  {
    st.(scopes := st.scopes + [map[]])
  }

  /** `endScope`: pops the innermost scope (popping an empty stack does
      nothing). */
  function EndScope(st: RState): (after: RState)
    ensures |st.scopes| > 0 ==> after.scopes == st.scopes[..|st.scopes| - 1]
    ensures |st.scopes| == 0 ==> after.scopes == []
    ensures after.current == st.current && after.locals == st.locals && after.diags == st.diags
  {
    if |st.scopes| == 0 then st else st.(scopes := st.scopes[..|st.scopes| - 1])
  }

  /** The scope stack with the innermost scope's entry for `name` set. */
  function SetInnermost(scopes: seq<map<string, bool>>, name: string, defined: bool): (r: seq<map<string, bool>>)
    requires |scopes| > 0
    ensures |r| == |scopes| && r[|r| - 1] == scopes[|scopes| - 1][name := defined]
    ensures forall k :: 0 <= k < |scopes| - 1 ==> r[k] == scopes[k]
  {
    scopes[|scopes| - 1 := scopes[|scopes| - 1][name := defined]]
  }

  /** `declare`: at global scope nothing happens; otherwise the name is
      marked declared-but-not-defined in the innermost scope, after
      reporting an error if that scope already has it. */
  function Declare(st: RState, name: Token): (after: RState)
    ensures |st.scopes| == 0 ==> after == st
    ensures |st.scopes| > 0 ==>
      var inner := st.scopes[|st.scopes| - 1];
      && after.scopes == SetInnermost(st.scopes, name.lexeme, false)
      && after.diags == st.diags + (if name.lexeme in inner then [TokenError(name, "Already variable with this name in this scope.")] else [])
    ensures after.current == st.current && after.locals == st.locals
  {
    if |st.scopes| == 0 then st
    else
      var st1 := if name.lexeme in st.scopes[|st.scopes| - 1]
        then Report(st, name, "Already variable with this name in this scope.")
        else st;
      st1.(scopes := SetInnermost(st1.scopes, name.lexeme, false))
  }

  /** `define`: at global scope nothing happens; otherwise the name is
      marked defined in the innermost scope. It never reports. */
  function Define(st: RState, name: Token): (after: RState)
    ensures |st.scopes| == 0 ==> after == st
    ensures |st.scopes| > 0 ==> after.scopes == SetInnermost(st.scopes, name.lexeme, true)
    ensures after.current == st.current && after.locals == st.locals && after.diags == st.diags
  {
    if |st.scopes| == 0 then st
    else st.(scopes := SetInnermost(st.scopes, name.lexeme, true))
  }

  /** The index of the innermost scope among the first `n` that holds
      `name`: the search loop of `resolveLocal`, from the top down. */
  function Innermost(scopes: seq<map<string, bool>>, n: nat, name: string): (i: Option<nat>)
    requires n <= |scopes|
    ensures i.None? <==> forall k :: 0 <= k < n ==> name !in scopes[k]
    ensures i.Some? ==> i.value < n && name in scopes[i.value] && forall k :: i.value < k < n ==> name !in scopes[k]
  {
    if n == 0 then None
    else if name in scopes[n - 1] then Some(n - 1)
    else Innermost(scopes, n - 1, name)
  }

  /** `resolveLocal`: records, for node `id`, how many scopes out from the
      innermost the nearest scope holding the name is; records nothing when
      no scope holds it (the name is global). */
  function ResolveLocal(st: RState, id: nat, name: Token): (after: RState)
    ensures after.scopes == st.scopes && after.current == st.current && after.diags == st.diags
    ensures st.locals.Keys <= after.locals.Keys
    ensures (exists k :: 0 <= k < |st.scopes| && name.lexeme in st.scopes[k]) ==>
      && id in after.locals && after.locals[id] < |st.scopes|
      && name.lexeme in st.scopes[|st.scopes| - 1 - after.locals[id]]
      && (forall k :: |st.scopes| - 1 - after.locals[id] < k < |st.scopes| ==> name.lexeme !in st.scopes[k])
    ensures (forall k :: 0 <= k < |st.scopes| ==> name.lexeme !in st.scopes[k]) ==> after.locals == st.locals
  {
    match Innermost(st.scopes, |st.scopes|, name.lexeme)
    case None => st
    case Some(i) => st.(locals := st.locals[id := |st.scopes| - 1 - i])
  }

  // ---------------------------------------------------------------------
  // Expressions.

  /** `resolveExpr`. */
  function ResolveExpr(st: RState, e: Expr): (r: Resolution)
    ensures r.Success? ==> ExprPreserves(st, r.value)
    decreases e, 1
  {
    match e
    case Assign(id, name, value) =>
      (match ResolveExpr(st, value)
       case Failure(m) => Failure(m)
       case Success(st1) => Success(ResolveLocal(st1, id, name)))
    case Binary(_, _, _) => ResolveOperands(st, e)
    case Logical(_, _, _) => ResolveOperands(st, e)
    case Call(callee, _, args) =>
      (match ResolveExpr(st, callee)
       case Failure(m) => Failure(m)
       case Success(st1) => ResolveExprs(st1, args))
    case Grouping(inner) => ResolveExpr(st, inner)
    case Literal(_) => Success(st)
    case Unary(_, right) => ResolveExpr(st, right)
    case Variable(id, name) => Success(ResolveVariable(st, id, name))
    case Get(_, _) => Failure("visitGetExpr is not a function")
    case Sett(_, _, _) => Failure("visitSettExpr is not a function")
    case This(_, _) => Failure("visitThisExpr is not a function")
    case Super(_, _) => Failure("visitSuperExpr is not a function")
  }

  /** The two operands of a binary or logical expression, left first. */
  function ResolveOperands(st: RState, e: Expr): (r: Resolution)
    requires e.Binary? || e.Logical?
    ensures r.Success? ==> ExprPreserves(st, r.value)
    ensures var l := ResolveExpr(st, e.left);
      && (l.Failure? ==> r == l)
      && (l.Success? ==> r == ResolveExpr(l.value, e.right))
      && (r.Success? ==> l.Success? && st.diags <= l.value.diags <= r.value.diags)
    decreases e, 0
  {
    match ResolveExpr(st, e.left)
    case Failure(m) => Failure(m)
    case Success(st1) => ResolveExpr(st1, e.right)
  }

  /** The arguments of a call, left to right. */
  function ResolveExprs(st: RState, es: seq<Expr>): (r: Resolution)
    ensures r.Success? ==> ExprPreserves(st, r.value)
    ensures es != [] ==> var first := ResolveExpr(st, es[0]);
      && (first.Failure? ==> r == first)
      && (first.Success? ==> r == ResolveExprs(first.value, es[1..]))
      && (r.Success? ==> first.Success? && st.diags <= first.value.diags <= r.value.diags)
    decreases es, 1
  {
    if es == [] then Success(st)
    else
      match ResolveExpr(st, es[0])
      case Failure(m) => Failure(m)
      case Success(st1) => ResolveExprs(st1, es[1..])
  }

  /** `visitVariableExpr`: a name the innermost scope has declared but not
      yet defined is being read in its own initializer, which is reported;
      the read is resolved either way. */
  function ResolveVariable(st: RState, id: nat, name: Token): (after: RState)
    ensures ExprPreserves(st, after)
    ensures after.diags == st.diags +
      (if |st.scopes| > 0 && name.lexeme in st.scopes[|st.scopes| - 1] && !st.scopes[|st.scopes| - 1][name.lexeme]
       then [TokenError(name, "Can't read local variable in its own initializer.")] else [])
    ensures after.locals == ResolveLocal(st, id, name).locals
  {
    var st1 := if |st.scopes| > 0 && name.lexeme in st.scopes[|st.scopes| - 1] && !st.scopes[|st.scopes| - 1][name.lexeme]
      then Report(st, name, "Can't read local variable in its own initializer.")
      else st;
    ResolveLocal(st1, id, name)
  }

  // ---------------------------------------------------------------------
  // Statements.

  /** `resolveStmt`. */
  function ResolveStmt(st: RState, s: Stmt): (r: Resolution)
    ensures r.Success? ==> StmtPreserves(st, r.value)
    decreases s, 1
  {
    match s
    case Block(statements) => ResolveBlock(st, statements)
    case Expression(e) => ResolveExpr(st, e)
    case Print(e) => ResolveExpr(st, e)
    case Fun(decl) =>
      var st1 := Define(Declare(st, decl.name), decl.name);
      ResolveFunction(st1, decl, FUNCTION)
    case If(condition, thenBranch, elseBranch) =>
      (match ResolveExpr(st, condition)
       case Failure(m) => Failure(m)
       case Success(st1) =>
         match ResolveStmt(st1, thenBranch)
         case Failure(m) => Failure(m)
         case Success(st2) => if elseBranch.Some? then ResolveStmt(st2, elseBranch.value) else Success(st2))
    case Return(keyword, value) => ResolveReturn(st, keyword, value)
    case Var(name, initializer) => ResolveVar(st, name, initializer)
    case While(condition, body) =>
      (match ResolveExpr(st, condition)
       case Failure(m) => Failure(m)
       case Success(st1) => ResolveStmt(st1, body))
    case Class(_, _) => Failure("visitClassStmt is not a function")
  }

  /** `visitBlockStmt`: the statements in a scope of their own, which is
      gone afterwards, so the scope stack is exactly as before. */
  function ResolveBlock(st: RState, statements: seq<Stmt>): (r: Resolution)
    ensures r.Success? ==> StmtPreserves(st, r.value) && r.value.scopes == st.scopes
    decreases Block(statements), 0
  {
    match ResolveStmts(BeginScope(st), statements)
    case Failure(m) => Failure(m)
    case Success(st1) =>
      assert st1.scopes[..|st.scopes|] == st.scopes;
      Success(EndScope(st1))
  }

  /** `visitReturnStmt`: a return outside any function is reported; the
      value, if any, is resolved. */
  function ResolveReturn(st: RState, keyword: Token, value: Option<Expr>): (r: Resolution)
    ensures r.Success? ==> StmtPreserves(st, r.value)
    ensures st.current == NONE && r.Success? ==>
      |r.value.diags| > |st.diags| && r.value.diags[|st.diags|] == TokenError(keyword, "Can't return from top-level code.")
    ensures st.current != NONE && value.None? ==> r == Success(st)
    decreases Return(keyword, value), 0
  {
    var st1 := if st.current == NONE then Report(st, keyword, "Can't return from top-level code.") else st;
    match value
    case None => Success(st1)
    case Some(e) => ResolveExpr(st1, e)
  }

  /** `visitVarStmt`: declared before the initializer is resolved and
      defined after it. */
  function ResolveVar(st: RState, name: Token, initializer: Option<Expr>): (r: Resolution)
    ensures r.Success? ==> StmtPreserves(st, r.value)
    ensures |st.scopes| > 0 && r.Success? ==> r.value.scopes[|st.scopes| - 1] == st.scopes[|st.scopes| - 1][name.lexeme := true]
    decreases Var(name, initializer), 0
  {
    var st1 := Declare(st, name);
    match initializer
    case None => Success(Define(st1, name))
    case Some(e) =>
      match ResolveExpr(st1, e)
      case Failure(m) => Failure(m)
      case Success(st2) => Success(Define(st2, name))
  }

  /** The statement loop of `resolveStmts`. */
  function ResolveStmts(st: RState, statements: seq<Stmt>): (r: Resolution)
    ensures r.Success? ==> StmtPreserves(st, r.value)
    decreases statements, 1
  {
    if statements == [] then Success(st)
    else
      match ResolveStmt(st, statements[0])
      case Failure(m) => Failure(m)
      case Success(st1) => ResolveStmts(st1, statements[1..])
  }

  /** The parameter loop of `resolveFunction`: each parameter declared then
      defined, so a repeated parameter name is reported. */
  function DeclareParameters(st: RState, params: seq<Token>): (after: RState)
    ensures |after.scopes| == |st.scopes| && (forall k :: 0 <= k < |st.scopes| - 1 ==> after.scopes[k] == st.scopes[k])
    ensures after.current == st.current && after.locals == st.locals && st.diags <= after.diags
    ensures |st.scopes| > 0 ==> forall i :: 0 <= i < |params| ==>
      params[i].lexeme in after.scopes[|st.scopes| - 1] && after.scopes[|st.scopes| - 1][params[i].lexeme]
    decreases |params|
  {
    if params == [] then st
    else
      var n := |params| - 1;
      var st1 := DeclareParameters(st, params[..n]);
      assert forall i :: 0 <= i < n ==> params[..n][i] == params[i];
      Define(Declare(st1, params[n]), params[n])
  }

  /** `resolveFunction`: the body is resolved as a function of the given
      kind, in a fresh scope holding the parameters; afterwards the scope
      stack and the enclosing function kind are exactly as before. */
  function ResolveFunction(st: RState, decl: FunDecl, kind: FunctionType): (r: Resolution)
    ensures r.Success? ==> r.value.scopes == st.scopes && r.value.current == st.current
    ensures r.Success? ==> st.diags <= r.value.diags && st.locals.Keys <= r.value.locals.Keys
    decreases decl, 1
  {
    var st1 := DeclareParameters(BeginScope(st.(current := kind)), decl.params);
    match ResolveStmts(st1, decl.body)
    case Failure(m) => Failure(m)
    case Success(st2) =>
      assert st2.scopes[..|st.scopes|] == st.scopes;
      Success(EndScope(st2).(current := st.current))
  }

  /** `resolve` on a whole program: from a fresh resolver, the statements
      in order. */
  function Resolve(statements: seq<Stmt>): (r: Resolution)
    ensures r.Success? ==> r.value.scopes == [] && r.value.current == NONE
  {
    ResolveStmts(Start, statements)
  }
}
