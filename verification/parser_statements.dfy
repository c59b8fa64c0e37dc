/** What the statement productions build from the tokens: each statement's
    parts are the results of the sub-parses at the positions the grammar
    names, and a block ends at its closing brace. Together with the
    expression yields of `ParserProperties`, this ties every parsed
    statement to the tokens it was read from. */
module ParserStatements {
  import opened Wrappers
  import opened Tokens
  import opened Ast
  import opened Parser

  /** A successful block body `r` has just consumed its closing `}`. */
  lemma {:induction false} BlockBodyClosed(toks: seq<Token>, statements: seq<Stmt>, c: Cursor, r: Parsed<seq<Stmt>>)
    requires Valid(toks) && c.pos < |toks|
    requires forall s :: s in statements ==> StmtGrammatical(toks, s)
    requires r == BlockBody(toks, statements, c)
    ensures r.Parsed? ==> 0 < r.st.pos && toks[r.st.pos - 1].kind == RIGHT_BRACE
    decreases |toks| - c.pos
  {
    if !Check(toks, c.pos, RIGHT_BRACE) && !AtEnd(toks, c.pos) {
      var d := Declaration(toks, c);
      var more := if d.value.Some? then statements + [d.value.value] else statements;
      BlockBodyStep(toks, statements, c, d, more);
      BlockBodyClosed(toks, more, d.st, r);
    }
  }

  /** One iteration of the block loop: the declaration it reads joins the
      statements unless error recovery dropped it. */
  lemma BlockBodyStep(toks: seq<Token>, statements: seq<Stmt>, c: Cursor, d: Parsed<Option<Stmt>>, more: seq<Stmt>)
    requires Valid(toks) && c.pos < |toks|
    requires forall s :: s in statements ==> StmtGrammatical(toks, s)
    requires !Check(toks, c.pos, RIGHT_BRACE) && !AtEnd(toks, c.pos)
    requires d == Declaration(toks, c)
    requires more == if d.value.Some? then statements + [d.value.value] else statements
    ensures c.pos < d.st.pos < |toks|
    ensures forall s :: s in more ==> StmtGrammatical(toks, s)
    ensures BlockBody(toks, statements, c) == BlockBody(toks, more, d.st)
  {
  }

  /** `{ ... }` parses to the block of the declarations up to its closing
      brace, which it consumes. */
  lemma BlockStatementClosed(toks: seq<Token>, c: Cursor)
    requires Valid(toks) && c.pos < |toks|
    ensures var r := BlockStatement(toks, c);
      r.Parsed? ==>
        && r.value == Block(BlockBody(toks, [], c).value)
        && 0 < r.st.pos && toks[r.st.pos - 1].kind == RIGHT_BRACE
  {
    BlockBodyClosed(toks, [], c, BlockBody(toks, [], c));
  }

  /** `print e;`: the printed expression is the expression after `print`,
      and a `;` must follow it. */
  lemma PrintParts(toks: seq<Token>, c: Cursor)
    requires Valid(toks) && c.pos < |toks|
    ensures var r := PrintStatement(toks, c); var e := Parser.Expression(toks, c);
      r.Parsed? <==> e.Parsed? && Check(toks, e.st.pos, SEMICOLON)
    ensures var r := PrintStatement(toks, c); var e := Parser.Expression(toks, c);
      r.Parsed? ==> r == Parsed(Print(e.value), Advanced(e.st))
  {
  }

  /** `e;`: the statement wraps the expression, and a `;` must follow it. */
  lemma ExpressionParts(toks: seq<Token>, c: Cursor)
    requires Valid(toks) && c.pos < |toks|
    ensures var r := ExpressionStatement(toks, c); var e := Parser.Expression(toks, c);
      r.Parsed? <==> e.Parsed? && Check(toks, e.st.pos, SEMICOLON)
    ensures var r := ExpressionStatement(toks, c); var e := Parser.Expression(toks, c);
      r.Parsed? ==> r == Parsed(Stmt.Expression(e.value), Advanced(e.st))
  {
  }

  /** `return e;` and `return;`: the value is the optional expression before
      the `;`. */
  lemma ReturnParts(toks: seq<Token>, keyword: Token, c: Cursor)
    requires Valid(toks) && c.pos < |toks| && keyword.kind == RETURN
    ensures var r := ReturnStatement(toks, keyword, c); var v := OptionalExpression(toks, c, SEMICOLON);
      r.Parsed? <==> v.Parsed? && Check(toks, v.st.pos, SEMICOLON)
    ensures var r := ReturnStatement(toks, keyword, c); var v := OptionalExpression(toks, c, SEMICOLON);
      r.Parsed? ==> r == Parsed(Return(keyword, v.value), Advanced(v.st))
  {
  }

  /** `while (cond) body`: the condition is the expression inside the
      parentheses and the body the statement after them. */
  lemma WhileParts(toks: seq<Token>, c: Cursor)
    requires Valid(toks) && c.pos < |toks|
    ensures var r := WhileStatement(toks, c);
      r.Parsed? ==>
        var cond := Parser.Expression(toks, Advanced(c));
        && cond.Parsed? && Check(toks, cond.st.pos, RIGHT_PAREN)
        && var body := Statement(toks, Advanced(cond.st));
        && body.Parsed?
        && r == Parsed(While(cond.value, body.value), body.st)
  {
  }

  /** `if (cond) ...`: the condition is the expression inside the
      parentheses, and the branches are read after them. */
  lemma IfParts(toks: seq<Token>, c: Cursor)
    requires Valid(toks) && c.pos < |toks|
    ensures var r := IfStatement(toks, c);
      r.Parsed? ==>
        var cond := Parser.Expression(toks, Advanced(c));
        && cond.Parsed? && Check(toks, cond.st.pos, RIGHT_PAREN)
        && r == IfBranches(toks, cond.value, Advanced(cond.st))
  {
  }

  /** The `else` branch, when there is one, is the statement after `else`. */
  lemma ElseParts(toks: seq<Token>, condition: Expr, c: Cursor)
    requires Valid(toks) && c.pos < |toks| && Grammatical(toks, condition)
    ensures var r := IfBranches(toks, condition, c); var t := Statement(toks, c);
      r.Parsed? && r.value.elseBranch.Some? ==>
        && t.Parsed? && Check(toks, t.st.pos, ELSE)
        && var e := Statement(toks, Advanced(t.st));
        && e.Parsed? && r == Parsed(If(condition, t.value, Some(e.value)), e.st)
  {
  }

  /** `var name = init;`: the name is the token after `var`, and the
      initializer is the expression after `=`, present exactly when `=`
      follows the name. */
  lemma VarParts(toks: seq<Token>, c: Cursor)
    requires Valid(toks) && c.pos < |toks|
    ensures var r := VarDeclaration(toks, c);
      r.Parsed? ==>
        var init := VarInitializer(toks, Advanced(c));
        && init.Parsed? && Check(toks, init.st.pos, SEMICOLON)
        && r == Parsed(Var(toks[c.pos], init.value), Advanced(init.st))
    ensures var init := VarInitializer(toks, c);
      init.Parsed? && init.value.Some? ==>
        var e := Parser.Expression(toks, Advanced(c));
        && e.Parsed? && init == Parsed(Some(e.value), e.st)
  {
  }

  /** `for (init; cond; incr) body` is `DesugarFor` of its four clauses,
      each read where the grammar puts it. */
  lemma ForDesugars(toks: seq<Token>, c: Cursor)
    requires Valid(toks) && c.pos < |toks|
    ensures var r := ForStatement(toks, c);
      r.Parsed? ==>
        var init := ForInitializer(toks, Advanced(c));
        && init.Parsed?
        && var cond := OptionalExpression(toks, init.st, SEMICOLON);
        && cond.Parsed? && Check(toks, cond.st.pos, SEMICOLON)
        && var incr := OptionalExpression(toks, Advanced(cond.st), RIGHT_PAREN);
        && incr.Parsed? && Check(toks, incr.st.pos, RIGHT_PAREN)
        && var body := Statement(toks, Advanced(incr.st));
        && body.Parsed?
        && r == Parsed(DesugarFor(init.value, cond.value, incr.value, body.value), body.st)
  {
    var r := ForStatement(toks, c);
    if r.Parsed? {
      var init := ForInitializer(toks, Advanced(c));
      assert init.Parsed? && r == ForClauses(toks, init.value, init.st);
      ForClausesParts(toks, init.value, init.st);
    }
  }

  /** The condition clause: the optional expression before the second `;`. */
  lemma ForClausesParts(toks: seq<Token>, initializer: Option<Stmt>, c: Cursor)
    requires Valid(toks) && c.pos < |toks|
    requires initializer.Some? ==> StmtGrammatical(toks, initializer.value)
    ensures var r := ForClauses(toks, initializer, c);
      r.Parsed? ==>
        var cond := OptionalExpression(toks, c, SEMICOLON);
        && cond.Parsed? && Check(toks, cond.st.pos, SEMICOLON)
        && var incr := OptionalExpression(toks, Advanced(cond.st), RIGHT_PAREN);
        && incr.Parsed? && Check(toks, incr.st.pos, RIGHT_PAREN)
        && var body := Statement(toks, Advanced(incr.st));
        && body.Parsed?
        && r == Parsed(DesugarFor(initializer, cond.value, incr.value, body.value), body.st)
  {
    var r := ForClauses(toks, initializer, c);
    if r.Parsed? {
      var cond := OptionalExpression(toks, c, SEMICOLON);
      assert cond.Parsed? && Check(toks, cond.st.pos, SEMICOLON);
      assert r == ForIncrement(toks, initializer, cond.value, Advanced(cond.st));
      ForIncrementParts(toks, initializer, cond.value, Advanced(cond.st));
    }
  }

  /** The increment clause before `)`, then the body. */
  lemma ForIncrementParts(toks: seq<Token>, initializer: Option<Stmt>, condition: Option<Expr>, c: Cursor)
    requires Valid(toks) && c.pos < |toks|
    requires initializer.Some? ==> StmtGrammatical(toks, initializer.value)
    requires condition.Some? ==> Grammatical(toks, condition.value)
    ensures var r := ForIncrement(toks, initializer, condition, c);
      r.Parsed? ==>
        var incr := OptionalExpression(toks, c, RIGHT_PAREN);
        && incr.Parsed? && Check(toks, incr.st.pos, RIGHT_PAREN)
        && var body := Statement(toks, Advanced(incr.st));
        && body.Parsed?
        && r == Parsed(DesugarFor(initializer, condition, incr.value, body.value), body.st)
  {
  }
}
