/** Properties of the resolver on the programs its error messages are
    about: reading a local in its own initializer, recursion, returns at
    top level and inside functions, and duplicate declarations. */
module ResolverProperties {
  import opened Wrappers
  import opened Tokens
  import opened Ast
  import opened Resolver

  /** `{ var a = a; }` reports the read of `a` in its own initializer: the
      declaration has marked `a` as not yet defined when the initializer is
      resolved. */
  lemma OwnInitializerInBlock(st: RState, name: Token, id: nat, ref: Token)
    requires ref.lexeme == name.lexeme
    ensures var r := ResolveStmt(st, Block([Var(name, Some(Variable(id, ref)))]));
      && r.Success?
      && r.value.diags == st.diags + [TokenError(ref, "Can't read local variable in its own initializer.")]
      && r.value.scopes == st.scopes
  {
    var inner := BeginScope(st);
    var declared := Declare(inner, name);
    assert declared.diags == st.diags;
    assert declared.scopes[|inner.scopes| - 1] == map[name.lexeme := false];
    var read := ResolveVariable(declared, id, ref);
    assert read.diags == st.diags + [TokenError(ref, "Can't read local variable in its own initializer.")];
    var defined := Define(read, name);
    assert ResolveVar(inner, name, Some(Variable(id, ref))) == Success(defined);
    assert ResolveStmts(inner, [Var(name, Some(Variable(id, ref)))]) == Success(defined) by {
      assert [Var(name, Some(Variable(id, ref)))][1..] == [];
      assert ResolveStmt(inner, Var(name, Some(Variable(id, ref)))) == Success(defined);
    }
  }

  /** At global scope the same declaration is not an error: nothing is
      tracked there, and the read is left to the global frame. */
  lemma OwnInitializerAtGlobalScope(st: RState, name: Token, id: nat, ref: Token)
    requires st.scopes == [] && ref.lexeme == name.lexeme
    ensures ResolveStmt(st, Var(name, Some(Variable(id, ref)))) == Success(st)
  {
    assert ResolveStmt(st, Var(name, Some(Variable(id, ref)))) == ResolveVar(st, name, Some(Variable(id, ref)));
  }

  /** A local function may call itself: its name is defined before its body
      is resolved, so the call in the body is no error and resolves to the
      scope just outside the function's own. */
  lemma LocalRecursion(st: RState, name: Token, id: nat, ref: Token, paren: Token)
    requires |st.scopes| > 0 && ref.lexeme == name.lexeme
    ensures var r := ResolveStmt(st, Fun(FunDecl(name, [], [Expression(Call(Variable(id, ref), paren, []))])));
      && r.Success?
      && r.value.diags == st.diags + (if name.lexeme in st.scopes[|st.scopes| - 1] then [TokenError(name, "Already variable with this name in this scope.")] else [])
      && id in r.value.locals && r.value.locals[id] == 1
  {
    var call := Call(Variable(id, ref), paren, []);
    var decl := FunDecl(name, [], [Expression(call)]);
    var st1 := Define(Declare(st, name), name);
    var body := BeginScope(st1.(current := FUNCTION));
    assert DeclareParameters(body, []) == body;
    assert body.scopes[|st.scopes| - 1][name.lexeme];
    assert name.lexeme !in body.scopes[|st.scopes|];
    var read := ResolveVariable(body, id, ref);
    assert read.diags == body.diags;
    assert read.locals[id] == 1;
    assert ResolveExpr(body, call) == Success(read) by {
      assert ResolveExpr(body, Variable(id, ref)) == Success(read);
      assert ResolveExprs(read, []) == Success(read);
    }
    assert ResolveStmts(body, decl.body) == Success(read) by {
      assert decl.body[1..] == [];
      assert ResolveStmt(body, Expression(call)) == Success(read);
    }
    assert ResolveFunction(st1, decl, FUNCTION) == Success(EndScope(read).(current := st1.current));
  }

  /** `return` outside any function is reported. */
  lemma ReturnAtTopLevel(keyword: Token)
    ensures Resolve([Return(keyword, None)]) == Success(Start.(diags := [TokenError(keyword, "Can't return from top-level code.")]))
  {
    var st := Start.(diags := [TokenError(keyword, "Can't return from top-level code.")]);
    assert Start.current == NONE && Start.diags == [];
    assert Report(Start, keyword, "Can't return from top-level code.") == st;
    assert ResolveReturn(Start, keyword, None) == Success(st);
    assert ResolveStmt(Start, Return(keyword, None)) == Success(st);
    assert [Return(keyword, None)][0] == Return(keyword, None) && [Return(keyword, None)][1..] == [];
    assert ResolveStmts(st, []) == Success(st);
  }

  /** `return` inside a function body is not reported, and the function
      kind is restored afterwards. */
  lemma ReturnInsideFunction(name: Token, keyword: Token)
    ensures var r := Resolve([Fun(FunDecl(name, [], [Return(keyword, None)]))]);
      r.Success? && r.value.diags == [] && r.value.current == NONE
  {
    var decl := FunDecl(name, [], [Return(keyword, None)]);
    var body := BeginScope(Start.(current := FUNCTION));
    assert DeclareParameters(body, []) == body;
    assert ResolveReturn(body, keyword, None) == Success(body);
    assert ResolveStmt(body, Return(keyword, None)) == Success(body);
    assert ResolveStmts(body, decl.body) == Success(body) by {
      assert decl.body[0] == Return(keyword, None) && decl.body[1..] == [];
      assert ResolveStmts(body, []) == Success(body);
    }
    var done := EndScope(body).(current := NONE);
    assert done == Start;
    assert ResolveFunction(Start, decl, FUNCTION) == Success(done);
    assert ResolveStmt(Start, Fun(decl)) == Success(done);
    assert [Fun(decl)][0] == Fun(decl) && [Fun(decl)][1..] == [];
    assert ResolveStmts(done, []) == Success(done);
  }

  /** Declaring a name twice in the same local scope is reported at the
      second declaration. */
  lemma DuplicateLocal(st: RState, first: Token, second: Token)
    requires first.lexeme == second.lexeme
    ensures var r := ResolveStmt(st, Block([Var(first, None), Var(second, None)]));
      && r.Success?
      && r.value.diags == st.diags + [TokenError(second, "Already variable with this name in this scope.")]
  {
    var inner := BeginScope(st);
    var one := Define(Declare(inner, first), first);
    assert one.diags == st.diags;
    var two := Define(Declare(one, second), second);
    assert two.diags == st.diags + [TokenError(second, "Already variable with this name in this scope.")];
    var block := [Var(first, None), Var(second, None)];
    assert ResolveStmt(inner, Var(first, None)) == ResolveVar(inner, first, None) == Success(one);
    assert ResolveStmt(one, Var(second, None)) == ResolveVar(one, second, None) == Success(two);
    assert ResolveStmts(one, [Var(second, None)]) == Success(two) by {
      assert [Var(second, None)][0] == Var(second, None) && [Var(second, None)][1..] == [];
      assert ResolveStmts(two, []) == Success(two);
    }
    assert ResolveStmts(inner, block) == Success(two) by {
      assert block[0] == Var(first, None) && block[1..] == [Var(second, None)];
    }
  }

  /** Resolving the arguments `a + b` resolves `a` and then `b` from the
      state `a` left, so every error an argument of `a` reports comes
      before every error of `b`. */
  lemma {:induction false} ResolveExprsAppend(st: RState, a: seq<Expr>, b: seq<Expr>)
    ensures var ra := ResolveExprs(st, a);
      ResolveExprs(st, a + b) == if ra.Failure? then ra else ResolveExprs(ra.value, b)
    ensures var ra := ResolveExprs(st, a);
      ResolveExprs(st, a + b).Success? ==> ra.Success? && ra.value.diags <= ResolveExprs(st, a + b).value.diags
    decreases |a|
  {
    if a == [] {
      assert a + b == b;
    } else {
      assert (a + b)[0] == a[0];
      assert (a + b)[1..] == a[1..] + b;
      var first := ResolveExpr(st, a[0]);
      if first.Success? {
        ResolveExprsAppend(first.value, a[1..], b);
      }
    }
  }
}
