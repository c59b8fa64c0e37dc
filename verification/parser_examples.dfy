/** Worked parses: the trees the expression parser builds from a few short
    token sequences, fixing associativity and precedence on concrete input.
    Each is an instance of a lemma about any token sequence of that shape. */
module ParserExamples {
  import opened Tokens
  import opened Ast
  import opened Parser
  import opened ParserProperties

  // ---------------------------------------------------------------------
  // Single steps of the expression parser.

  /** The token kinds that continue an operand of infix level `lv`: the
      operators of every tighter infix level, and `(` and `.`, which start
      a call or property suffix. */
  function Continuing(lv: Prec): (ks: set<TokenType>)
    requires IsInfix(lv)
  {
    match lv
    case FactorLevel => {LEFT_PAREN, DOT}
    case TermLevel => {SLASH, STAR, LEFT_PAREN, DOT}
    case ComparisonLevel => {MINUS, PLUS, SLASH, STAR, LEFT_PAREN, DOT}
    case EqualityLevel => {GREATER, GREATER_EQUAL, LESS, LESS_EQUAL, MINUS, PLUS, SLASH, STAR, LEFT_PAREN, DOT}
    case AndLevel => {BANG_EQUAL, EQUAL_EQUAL, GREATER, GREATER_EQUAL, LESS, LESS_EQUAL, MINUS, PLUS, SLASH, STAR, LEFT_PAREN, DOT}
    case OrLevel => {AND, BANG_EQUAL, EQUAL_EQUAL, GREATER, GREATER_EQUAL, LESS, LESS_EQUAL, MINUS, PLUS, SLASH, STAR, LEFT_PAREN, DOT}
  }

  /** What continues an operand of a level is what continues a parse at
      the next tighter level, or that level's operators. */
  lemma ContinuingTighter(k: TokenType, lv: Prec)
    requires IsInfix(lv) && lv != FactorLevel
    ensures k in Continuing(lv) <==> k in Operators(Tighter(lv)) || k in Continuing(Tighter(lv))
  {
  }

  /** A token of kind `k` ends an operand of level `lv`. */
  predicate EndsOperand(k: TokenType, lv: Prec)
    requires IsInfix(lv)
  {
    k !in Continuing(lv)
  }

  /** A token of kind `k` ends a parse at level `lv`: it ends an operand
      and is no operator of `lv` either. */
  predicate Stops(k: TokenType, lv: Prec)
    requires IsInfix(lv)
  {
    k !in Operators(lv) && EndsOperand(k, lv)
  }

  /** No token kind is an operator of two levels. */
  lemma {:induction false} OperatorsDisjoint(k: TokenType, lv: Prec, top: Prec)
    requires IsInfix(lv) && IsInfix(top) && lv != top && k in Operators(top)
    ensures k !in Operators(lv)
  {
  }

  /** An operator of a level ends the operands of that level and of every
      tighter one. */
  lemma {:induction false} OperatorEndsOperand(k: TokenType, lv: Prec, top: Prec)
    requires IsInfix(lv) && IsInfix(top) && Rank(lv) <= Rank(top) && k in Operators(top)
    ensures EndsOperand(k, lv)
    decreases Rank(lv)
  {
    if lv != FactorLevel {
      OperatorsDisjoint(k, Tighter(lv), top);
      OperatorEndsOperand(k, Tighter(lv), top);
      ContinuingTighter(k, lv);
    }
  }

  /** A name followed by neither `(` nor `.` is a unary operand by itself. */
  lemma {:induction false} UnaryName(toks: seq<Token>, p: nat, d: seq<Diag>)
    requires Valid(toks) && p + 1 < |toks| && toks[p].kind == IDENTIFIER
    requires toks[p + 1].kind != LEFT_PAREN && toks[p + 1].kind != DOT
    ensures UnaryExpr(toks, Cursor(p, d)) == Parsed(Variable(p, toks[p]), Cursor(p + 1, d))
  {
    PrimaryName(toks, Cursor(p, d));
    NoSuffix(toks, Variable(p, toks[p]), Cursor(p + 1, d));
  }


  /** A name is a primary expression by itself. */
  lemma {:induction false} PrimaryName(toks: seq<Token>, c: Cursor)
    requires Valid(toks) && c.pos < |toks| && toks[c.pos].kind == IDENTIFIER
    ensures Primary(toks, c) == Parsed(Variable(c.pos, toks[c.pos]), Advanced(c))
  {
  }

  /** Without a `(` or `.` next, no call or property suffix follows. */
  lemma {:induction false} NoSuffix(toks: seq<Token>, e: Expr, c: Cursor)
    requires Valid(toks) && c.pos < |toks| && Fits(CallLevel, e) && Grammatical(toks, e)
    requires toks[c.pos].kind != LEFT_PAREN && toks[c.pos].kind != DOT
    ensures CallRest(toks, e, c) == Parsed(e, c)
  {
  }


  /** A name followed by a token that ends operands of `lv` is an operand
      of `lv` by itself. */
  lemma {:induction false} OperandName(toks: seq<Token>, p: nat, d: seq<Diag>, lv: Prec)
    requires Valid(toks) && p + 1 < |toks| && toks[p].kind == IDENTIFIER
    requires IsInfix(lv) && EndsOperand(toks[p + 1].kind, lv)
    ensures Operand(toks, Cursor(p, d), lv) == Parsed(Variable(p, toks[p]), Cursor(p + 1, d))
    decreases Rank(lv), 0
  {
    if lv == FactorLevel {
      UnaryName(toks, p, d);
    } else {
      ContinuingTighter(toks[p + 1].kind, lv);
      NameAlone(toks, p, d, Tighter(lv));
    }
  }



  /** A name followed by a token that stops level `lv` is a whole parse at
      that level. */
  lemma {:induction false} NameAlone(toks: seq<Token>, p: nat, d: seq<Diag>, lv: Prec)
    requires Valid(toks) && p + 1 < |toks| && toks[p].kind == IDENTIFIER
    requires IsInfix(lv) && Stops(toks[p + 1].kind, lv)
    ensures Infix(toks, Cursor(p, d), lv) == Parsed(Variable(p, toks[p]), Cursor(p + 1, d))
    decreases Rank(lv), 1
  {
    OperandName(toks, p, d, lv);
    InfixAfterOperand(toks, Cursor(p, d), lv, Variable(p, toks[p]), Cursor(p + 1, d));
    LoopEndsAt(toks, Variable(p, toks[p]), p + 1, d, lv);
  }

  /** The operator loop ends at a token that is not one of its operators. */
  lemma {:induction false} LoopEnds(toks: seq<Token>, left: Expr, c: Cursor, lv: Prec)
    requires Valid(toks) && c.pos < |toks| && IsInfix(lv) && Fits(lv, left) && Grammatical(toks, left)
    requires !CheckAny(toks, c.pos, Operators(lv))
    ensures InfixRest(toks, left, c, lv) == Parsed(left, c)
  {
  }

  /** `LoopEnds` with the cursor where the loop stops spelled out. */
  lemma {:induction false} LoopEndsAt(toks: seq<Token>, left: Expr, p: nat, d: seq<Diag>, lv: Prec)
    requires LoopFrom(toks, left, lv) && p < |toks| && Stops(toks[p].kind, lv)
    ensures InfixRest(toks, left, Cursor(p, d), lv) == Parsed(left, Cursor(p, d))
  {
    LoopEnds(toks, left, Cursor(p, d), lv);
  }


  /** An infix level is its operator loop after the first operand. */
  lemma {:induction false} InfixAfterOperand(toks: seq<Token>, c: Cursor, lv: Prec, left: Expr, after: Cursor)
    requires Valid(toks) && c.pos < |toks| && IsInfix(lv) && Operand(toks, c, lv) == Parsed(left, after)
    ensures LoopFrom(toks, left, lv) && after.pos < |toks|
    ensures Infix(toks, c, lv) == InfixRest(toks, left, after, lv)
  {
  }


  /** A level that starts with a name runs its operator loop from the
      next token. */
  lemma {:induction false} NameThenLoop(toks: seq<Token>, p: nat, d: seq<Diag>, lv: Prec)
    requires Valid(toks) && p + 1 < |toks| && toks[p].kind == IDENTIFIER
    requires IsInfix(lv) && EndsOperand(toks[p + 1].kind, lv)
    ensures LoopFrom(toks, Variable(p, toks[p]), lv)
    ensures Infix(toks, Cursor(p, d), lv) == InfixRest(toks, Variable(p, toks[p]), Cursor(p + 1, d), lv)
  {
    OperandName(toks, p, d, lv);
    InfixAfterOperand(toks, Cursor(p, d), lv, Variable(p, toks[p]), Cursor(p + 1, d));
  }



  /** One iteration of the operator loop of `lv` whose right operand is
      known: the loop goes on after that operand with the new node. */
  lemma {:induction false} LoopStep(toks: seq<Token>, left: Expr, p: nat, d: seq<Diag>, lv: Prec, right: Expr, q: nat, e: seq<Diag>)
    requires LoopFrom(toks, left, lv) && p + 1 < |toks| && toks[p].kind in Operators(lv)
    requires Operand(toks, Cursor(p + 1, d), lv) == Parsed(right, Cursor(q, e))
    ensures LoopFrom(toks, InfixNode(lv, left, toks[p], right), lv) && q < |toks|
    ensures InfixRest(toks, left, Cursor(p, d), lv) == InfixRest(toks, InfixNode(lv, left, toks[p], right), Cursor(q, e), lv)
  {
    assert Advanced(Cursor(p, d)) == Cursor(p + 1, d);
    InfixRestStep(toks, left, Cursor(p, d), lv, right, Cursor(q, e));
  }

  /** One iteration of the operator loop whose right operand is a name:
      the loop goes on from after the name with the new node. */
  lemma {:induction false} LoopStepName(toks: seq<Token>, left: Expr, p: nat, d: seq<Diag>, lv: Prec)
    requires Valid(toks) && p + 2 < |toks| && IsInfix(lv) && Fits(lv, left) && Grammatical(toks, left)
    requires toks[p].kind in Operators(lv) && toks[p + 1].kind == IDENTIFIER
    requires EndsOperand(toks[p + 2].kind, lv)
    ensures var node := InfixNode(lv, left, toks[p], Variable(p + 1, toks[p + 1]));
      && Fits(lv, node) && Grammatical(toks, node)
      && InfixRest(toks, left, Cursor(p, d), lv) == InfixRest(toks, node, Cursor(p + 2, d), lv)
  {
    assert Operand(toks, Cursor(p + 1, d), lv) == Parsed(Variable(p + 1, toks[p + 1]), Cursor(p + 2, d)) by {
      OperandName(toks, p + 1, d, lv);
    }
    LoopStep(toks, left, p, d, lv, Variable(p + 1, toks[p + 1]), p + 2, d);
  }


  /** The tree the operator loop of `lv` builds from `left` over `n`
      pairs of an operator and a name starting at token `p`: each pair
      makes a new node with the tree so far on its left. */
  function LeftChain(toks: seq<Token>, left: Expr, p: nat, n: nat, lv: Prec): (e: Expr)
    requires p + 2 * n <= |toks|
    decreases n
  {
    if n == 0 then left
    else LeftChain(toks, InfixNode(lv, left, toks[p], Variable(p + 1, toks[p + 1])), p + 2, n - 1, lv)
  }

  /** `n` pairs of an operator of `lv` and a name start at token `p`. */
  predicate NamePairs(toks: seq<Token>, p: nat, n: nat, lv: Prec)
    requires IsInfix(lv) && p + 2 * n <= |toks|
  {
    forall i :: 0 <= i < n ==> toks[p + 2 * i].kind in Operators(lv) && toks[p + 2 * i + 1].kind == IDENTIFIER
  }

  /** A run of `n` pairs of an operator of `lv` and a name starts at
      token `p` and is followed, at token `end`, by a token that stops
      `lv`. */
  predicate Run(toks: seq<Token>, p: nat, n: nat, end: nat, lv: Prec) {
    IsInfix(lv) && end == p + 2 * n && end < |toks| && NamePairs(toks, p, n, lv) && Stops(toks[end].kind, lv)
  }

  /** The operator loop of `lv` can go on from the tree `left`. */
  predicate LoopFrom(toks: seq<Token>, left: Expr, lv: Prec) {
    Valid(toks) && IsInfix(lv) && Fits(lv, left) && Grammatical(toks, left)
  }

  /** After the first pair of a run the rest of the run follows, and the
      token after the first pair ends an operand of `lv`. */
  lemma {:induction false} RunRest(toks: seq<Token>, p: nat, n: nat, end: nat, lv: Prec)
    requires Run(toks, p, n, end, lv) && 0 < n
    ensures toks[p].kind in Operators(lv) && toks[p + 1].kind == IDENTIFIER
    ensures Run(toks, p + 2, n - 1, end, lv) && EndsOperand(toks[p + 2].kind, lv)
  {
    assert toks[p + 2 * 0].kind in Operators(lv) && toks[p + 2 * 0 + 1].kind == IDENTIFIER;
    forall i | 0 <= i < n - 1
      ensures toks[p + 2 + 2 * i].kind in Operators(lv) && toks[p + 2 + 2 * i + 1].kind == IDENTIFIER
    {
      assert toks[p + 2 * (i + 1)].kind in Operators(lv) && toks[p + 2 * (i + 1) + 1].kind == IDENTIFIER;
    }
    if n == 1 {
      assert EndsOperand(toks[p + 2].kind, lv);
    } else {
      assert toks[p + 2 * 1].kind in Operators(lv);
      OperatorEndsOperand(toks[p + 2].kind, lv, lv);
    }
  }

  /** The first token of a run either is an operator of `lv` or stops
      `lv`; either way it ends an operand of `lv`. */
  lemma {:induction false} RunStartEnds(toks: seq<Token>, p: nat, n: nat, end: nat, lv: Prec)
    requires Run(toks, p, n, end, lv)
    ensures EndsOperand(toks[p].kind, lv)
  {
    if 0 < n {
      assert toks[p + 2 * 0].kind in Operators(lv);
      OperatorEndsOperand(toks[p].kind, lv, lv);
    }
  }

  /** The chain over `n` pairs is the chain over the last `n - 1` pairs
      from the first pair's node. */
  lemma LeftChainStep(toks: seq<Token>, left: Expr, p: nat, n: nat, lv: Prec)
    requires p + 2 * n <= |toks| && 0 < n
    ensures LeftChain(toks, left, p, n, lv)
      == LeftChain(toks, InfixNode(lv, left, toks[p], Variable(p + 1, toks[p + 1])), p + 2, n - 1, lv)
  {
  }

  /** The first pair of a run makes one node and leaves the rest of the
      run after it. */
  lemma {:induction false} LoopFirstPair(toks: seq<Token>, left: Expr, p: nat, d: seq<Diag>, n: nat, end: nat, lv: Prec)
    requires LoopFrom(toks, left, lv) && Run(toks, p, n, end, lv) && 0 < n
    ensures var node := InfixNode(lv, left, toks[p], Variable(p + 1, toks[p + 1]));
      && LoopFrom(toks, node, lv) && Run(toks, p + 2, n - 1, end, lv)
      && InfixRest(toks, left, Cursor(p, d), lv) == InfixRest(toks, node, Cursor(p + 2, d), lv)
      && LeftChain(toks, left, p, n, lv) == LeftChain(toks, node, p + 2, n - 1, lv)
  {
    RunRest(toks, p, n, end, lv);
    LeftChainStep(toks, left, p, n, lv);
    LoopStepName(toks, left, p, d, lv);
  }

  /** A run of `n` pairs of an operator of `lv` and a name, ended by a
      token that stops `lv`, makes the operator loop fold the names to the
      left, one node per operator. */
  lemma {:induction false} LoopOverNames(toks: seq<Token>, left: Expr, p: nat, d: seq<Diag>, n: nat, end: nat, lv: Prec)
    requires LoopFrom(toks, left, lv) && Run(toks, p, n, end, lv)
    ensures InfixRest(toks, left, Cursor(p, d), lv) == Parsed(LeftChain(toks, left, p, n, lv), Cursor(end, d))
    decreases n, 1
  {
    if n == 0 {
      LoopEndsAt(toks, left, p, d, lv);
    } else {
      LoopOverPairs(toks, left, p, d, n, end, lv);
    }
  }

  /** `LoopOverNames` for a run of at least one pair. */
  lemma {:induction false} LoopOverPairs(toks: seq<Token>, left: Expr, p: nat, d: seq<Diag>, n: nat, end: nat, lv: Prec)
    requires LoopFrom(toks, left, lv) && Run(toks, p, n, end, lv) && 0 < n
    ensures InfixRest(toks, left, Cursor(p, d), lv) == Parsed(LeftChain(toks, left, p, n, lv), Cursor(end, d))
    decreases n, 0
  {
    LoopFirstPair(toks, left, p, d, n, end, lv);
    LoopOverNames(toks, InfixNode(lv, left, toks[p], Variable(p + 1, toks[p + 1])), p + 2, d, n - 1, end, lv);
  }

  /** A name followed by a run of `n` pairs of an operator of `lv` and a
      name, ended by a token that stops `lv`: the level folds the names to
      the left, one node per operator, and stops at that token. */
  lemma {:induction false} NameRun(toks: seq<Token>, p: nat, d: seq<Diag>, n: nat, end: nat, lv: Prec)
    requires Valid(toks) && Run(toks, p + 1, n, end, lv) && toks[p].kind == IDENTIFIER
    ensures Infix(toks, Cursor(p, d), lv)
      == Parsed(LeftChain(toks, Variable(p, toks[p]), p + 1, n, lv), Cursor(end, d))
  {
    RunStartEnds(toks, p + 1, n, end, lv);
    NameThenLoop(toks, p, d, lv);
    LoopOverNames(toks, Variable(p, toks[p]), p + 1, d, n, end, lv);
  }



  /** A level whose operator does not follow the parse of the next
      tighter level adds nothing to it. */
  lemma {:induction false} LiftInfix(toks: seq<Token>, c: Cursor, lv: Prec, r: Parsed<Expr>)
    requires Valid(toks) && c.pos < |toks| && IsInfix(lv) && lv != FactorLevel
    requires Infix(toks, c, Tighter(lv)) == r && r.Parsed? && r.st.pos < |toks| && !CheckAny(toks, r.st.pos, Operators(lv))
    ensures Infix(toks, c, lv) == r
  {
  }

  /** Without a following `=`, an expression is its `or` level. */
  lemma {:induction false} ExpressionIsOr(toks: seq<Token>, c: Cursor, r: Parsed<Expr>)
    requires Valid(toks) && c.pos < |toks|
    requires Infix(toks, c, OrLevel) == r && r.Parsed? && r.st.pos < |toks| && !Check(toks, r.st.pos, EQUAL)
    ensures Assignment(toks, c) == r && Parser.Expression(toks, c) == r
  {
  }

  /** From the term level up, a parse that ends at EOF is the whole
      expression. */
  lemma {:induction false} ExpressionIsTerm(toks: seq<Token>, c: Cursor, r: Parsed<Expr>)
    requires Valid(toks) && c.pos < |toks|
    requires Infix(toks, c, TermLevel) == r && r.Parsed? && r.st.pos < |toks| && AtEnd(toks, r.st.pos)
    ensures Parser.Expression(toks, c) == r
  {
    LiftInfix(toks, c, ComparisonLevel, r);
    LiftInfix(toks, c, EqualityLevel, r);
    LiftInfix(toks, c, AndLevel, r);
    LiftInfix(toks, c, OrLevel, r);
    ExpressionIsOr(toks, c, r);
  }

  /** From the factor level up, a parse that ends at EOF is the whole
      expression. */
  lemma {:induction false} ExpressionIsFactor(toks: seq<Token>, c: Cursor, r: Parsed<Expr>)
    requires Valid(toks) && c.pos < |toks|
    requires Infix(toks, c, FactorLevel) == r && r.Parsed? && r.st.pos < |toks| && AtEnd(toks, r.st.pos)
    ensures Parser.Expression(toks, c) == r
  {
    LiftInfix(toks, c, TermLevel, r);
    ExpressionIsTerm(toks, c, r);
  }

  /** From the unary level up, a parse that ends at EOF is the whole
      expression. */
  lemma {:induction false} ExpressionIsUnary(toks: seq<Token>, c: Cursor, r: Parsed<Expr>)
    requires Valid(toks) && c.pos < |toks|
    requires UnaryExpr(toks, c) == r && r.Parsed? && r.st.pos < |toks| && AtEnd(toks, r.st.pos)
    ensures Parser.Expression(toks, c) == r
  {
    InfixAfterOperand(toks, c, FactorLevel, r.value, r.st);
    LoopEnds(toks, r.value, r.st, FactorLevel);
    ExpressionIsFactor(toks, c, r);
  }

  /** A name followed by a token that is neither `=` nor anything that
      continues an `or` parse is a whole assignment-level parse. */
  lemma {:induction false} AssignmentName(toks: seq<Token>, p: nat, d: seq<Diag>)
    requires Valid(toks) && p + 1 < |toks| && toks[p].kind == IDENTIFIER
    requires Stops(toks[p + 1].kind, OrLevel) && toks[p + 1].kind != EQUAL
    ensures Assignment(toks, Cursor(p, d)) == Parsed(Variable(p, toks[p]), Cursor(p + 1, d))
    ensures Parser.Expression(toks, Cursor(p, d)) == Parsed(Variable(p, toks[p]), Cursor(p + 1, d))
  {
    NameAlone(toks, p, d, OrLevel);
    ExpressionIsOr(toks, Cursor(p, d), Parsed(Variable(p, toks[p]), Cursor(p + 1, d)));
  }

  /** `x = value` with a name `x`: the value is parsed as an assignment in
      its own right, and the name becomes the target. */
  lemma {:induction false} AssignName(toks: seq<Token>, p: nat, d: seq<Diag>, r: Parsed<Expr>)
    requires Valid(toks) && p + 2 < |toks| && toks[p].kind == IDENTIFIER && toks[p + 1].kind == EQUAL
    requires Assignment(toks, Cursor(p + 2, d)) == r && r.Parsed?
    ensures Assignment(toks, Cursor(p, d)) == Parsed(Assign(p, toks[p], r.value), r.st)
  {
    NameAlone(toks, p, d, OrLevel);
    assert Advanced(Cursor(p + 1, d)) == Cursor(p + 2, d);
  }

  /** A prefix operator before a name that has no suffix. */
  lemma {:induction false} PrefixName(toks: seq<Token>, p: nat, d: seq<Diag>)
    requires Valid(toks) && p + 2 < |toks| && toks[p].kind in {BANG, MINUS} && toks[p + 1].kind == IDENTIFIER
    requires toks[p + 2].kind != LEFT_PAREN && toks[p + 2].kind != DOT
    ensures UnaryExpr(toks, Cursor(p, d)) == Parsed(Unary(toks[p], Variable(p + 1, toks[p + 1])), Cursor(p + 2, d))
  {
    UnaryName(toks, p + 1, d);
    assert Advanced(Cursor(p, d)) == Cursor(p + 1, d);
  }

  /** A `.` and a name after a call-level expression make a property get,
      and the suffixes go on after the name. */
  lemma {:induction false} GetStep(toks: seq<Token>, e: Expr, p: nat, d: seq<Diag>)
    requires Valid(toks) && p + 2 < |toks| && Fits(CallLevel, e) && Grammatical(toks, e)
    requires toks[p].kind == DOT && toks[p + 1].kind == IDENTIFIER
    ensures Fits(CallLevel, Get(e, toks[p + 1])) && Grammatical(toks, Get(e, toks[p + 1]))
    ensures CallRest(toks, e, Cursor(p, d)) == CallRest(toks, Get(e, toks[p + 1]), Cursor(p + 2, d))
  {
    assert Advanced(Cursor(p, d)) == Cursor(p + 1, d);
    assert Property(toks, e, Cursor(p + 1, d)) == Parsed(Get(e, toks[p + 1]), Cursor(p + 2, d));
  }

  /** A call with one argument whose parse ends right before the `)`. */
  lemma {:induction false} FinishCallOne(toks: seq<Token>, callee: Expr, p: nat, d: seq<Diag>, arg: Expr, q: nat)
    requires Valid(toks) && p < |toks| && Fits(CallLevel, callee) && Grammatical(toks, callee)
    requires toks[p].kind != RIGHT_PAREN && Parser.Expression(toks, Cursor(p, d)) == Parsed(arg, Cursor(q, d))
    requires q + 1 < |toks| && toks[q].kind == RIGHT_PAREN
    ensures FinishCall(toks, callee, Cursor(p, d)) == Parsed(Call(callee, toks[q], [arg]), Cursor(q + 1, d))
    ensures Fits(CallLevel, Call(callee, toks[q], [arg])) && Grammatical(toks, Call(callee, toks[q], [arg]))
  {
    assert Arguments(toks, [], Cursor(p, d)) == Parsed([arg], Cursor(q, d));
  }

  /** A `(` after a call-level expression starts a call, and the
      suffixes go on after the call's `)`. */
  lemma {:induction false} CallStep(toks: seq<Token>, e: Expr, p: nat, d: seq<Diag>, call: Expr, after: Cursor)
    requires Valid(toks) && p + 1 < |toks| && Fits(CallLevel, e) && Grammatical(toks, e) && toks[p].kind == LEFT_PAREN
    requires FinishCall(toks, e, Cursor(p + 1, d)) == Parsed(call, after)
    ensures Fits(CallLevel, call) && Grammatical(toks, call) && after.pos < |toks|
    ensures CallRest(toks, e, Cursor(p, d)) == CallRest(toks, call, after)
  {
    assert Advanced(Cursor(p, d)) == Cursor(p + 1, d);
  }


  /** `x = y = z`, for names `x`, `y`, `z`, nests the second assignment in the first. */
  lemma {:induction false} AssignNameName(toks: seq<Token>, p: nat, d: seq<Diag>)
    requires Valid(toks) && p + 3 < |toks| && toks[p].kind == IDENTIFIER && toks[p + 1].kind == EQUAL
    requires toks[p + 2].kind == IDENTIFIER && Stops(toks[p + 3].kind, OrLevel) && toks[p + 3].kind != EQUAL
    ensures Assignment(toks, Cursor(p, d)) == Parsed(Assign(p, toks[p], Variable(p + 2, toks[p + 2])), Cursor(p + 3, d))
  {
    AssignmentName(toks, p + 2, d);
    AssignName(toks, p, d, Parsed(Variable(p + 2, toks[p + 2]), Cursor(p + 3, d)));
  }

  lemma {:induction false} AssignTwice(toks: seq<Token>, p: nat, d: seq<Diag>)
    requires Valid(toks) && p + 5 < |toks| && toks[p].kind == IDENTIFIER && toks[p + 1].kind == EQUAL
    requires toks[p + 2].kind == IDENTIFIER && toks[p + 3].kind == EQUAL && toks[p + 4].kind == IDENTIFIER
    requires Stops(toks[p + 5].kind, OrLevel) && toks[p + 5].kind != EQUAL
    ensures Parser.Expression(toks, Cursor(p, d))
      == Parsed(Assign(p, toks[p], Assign(p + 2, toks[p + 2], Variable(p + 4, toks[p + 4]))), Cursor(p + 5, d))
  {
    AssignNameName(toks, p + 2, d);
    AssignName(toks, p, d, Parsed(Assign(p + 2, toks[p + 2], Variable(p + 4, toks[p + 4])), Cursor(p + 5, d)));
  }

  /** A prefix operator on a name, then one factor operator and a name. */
  lemma {:induction false} PrefixThenName(toks: seq<Token>, p: nat, d: seq<Diag>)
    requires Valid(toks) && p + 4 < |toks| && toks[p].kind in {BANG, MINUS} && toks[p + 1].kind == IDENTIFIER
    requires toks[p + 2].kind in Operators(FactorLevel) && toks[p + 3].kind == IDENTIFIER
    requires Stops(toks[p + 4].kind, FactorLevel)
    ensures Infix(toks, Cursor(p, d), FactorLevel)
      == Parsed(InfixNode(FactorLevel, Unary(toks[p], Variable(p + 1, toks[p + 1])), toks[p + 2], Variable(p + 3, toks[p + 3])), Cursor(p + 4, d))
  {
    PrefixName(toks, p, d);
    InfixAfterOperand(toks, Cursor(p, d), FactorLevel, Unary(toks[p], Variable(p + 1, toks[p + 1])), Cursor(p + 2, d));
    LastPair(toks, Unary(toks[p], Variable(p + 1, toks[p + 1])), p + 2, d, FactorLevel);
  }

  /** One more operator and name, then a token that stops `lv`, close the loop. */
  lemma {:induction false} LastPair(toks: seq<Token>, left: Expr, p: nat, d: seq<Diag>, lv: Prec)
    requires LoopFrom(toks, left, lv) && p + 2 < |toks| && toks[p].kind in Operators(lv)
    requires toks[p + 1].kind == IDENTIFIER && Stops(toks[p + 2].kind, lv)
    ensures InfixRest(toks, left, Cursor(p, d), lv)
      == Parsed(InfixNode(lv, left, toks[p], Variable(p + 1, toks[p + 1])), Cursor(p + 2, d))
  {
    LoopStepName(toks, left, p, d, lv);
    LoopEndsAt(toks, InfixNode(lv, left, toks[p], Variable(p + 1, toks[p + 1])), p + 2, d, lv);
  }

  /** A name, one operator of `lv` and a name. */
  lemma {:induction false} NameOpName(toks: seq<Token>, p: nat, d: seq<Diag>, lv: Prec)
    requires Valid(toks) && IsInfix(lv) && p + 3 < |toks| && toks[p].kind == IDENTIFIER
    requires toks[p + 1].kind in Operators(lv) && toks[p + 2].kind == IDENTIFIER && Stops(toks[p + 3].kind, lv)
    ensures Infix(toks, Cursor(p, d), lv)
      == Parsed(InfixNode(lv, Variable(p, toks[p]), toks[p + 1], Variable(p + 2, toks[p + 2])), Cursor(p + 3, d))
  {
    OperatorEndsOperand(toks[p + 1].kind, lv, lv);
    NameThenLoop(toks, p, d, lv);
    LastPair(toks, Variable(p, toks[p]), p + 1, d, lv);
  }

  /** Below `lv`, an operand is a whole expression of the next level. */
  lemma OperandIsTighter(toks: seq<Token>, c: Cursor, lv: Prec)
    requires Valid(toks) && c.pos < |toks| && IsInfix(lv) && lv != FactorLevel
    ensures Operand(toks, c, lv) == Infix(toks, c, Tighter(lv))
  {
  }

  /** A name, one operator of level `lv`, and an operand that parses to `right` and ends at a token that stops `lv`. */
  lemma {:induction false} NameOpOperand(toks: seq<Token>, p: nat, d: seq<Diag>, lv: Prec, right: Expr, q: nat)
    requires Valid(toks) && IsInfix(lv) && p + 2 < |toks| && toks[p].kind == IDENTIFIER
    requires toks[p + 1].kind in Operators(lv) && EndsOperand(toks[p + 1].kind, lv)
    requires Operand(toks, Cursor(p + 2, d), lv) == Parsed(right, Cursor(q, d))
    requires q < |toks| && Stops(toks[q].kind, lv)
    ensures Infix(toks, Cursor(p, d), lv) == Parsed(InfixNode(lv, Variable(p, toks[p]), toks[p + 1], right), Cursor(q, d))
  {
    NameThenLoop(toks, p, d, lv);
    NameOpOperandLoop(toks, Variable(p, toks[p]), p + 1, d, lv, right, q);
  }

  lemma {:induction false} NameOpOperandLoop(toks: seq<Token>, left: Expr, p: nat, d: seq<Diag>, lv: Prec, right: Expr, q: nat)
    requires LoopFrom(toks, left, lv) && p + 1 < |toks| && toks[p].kind in Operators(lv)
    requires Operand(toks, Cursor(p + 1, d), lv) == Parsed(right, Cursor(q, d))
    requires q < |toks| && Stops(toks[q].kind, lv)
    ensures InfixRest(toks, left, Cursor(p, d), lv) == Parsed(InfixNode(lv, left, toks[p], right), Cursor(q, d))
  {
    LoopStep(toks, left, p, d, lv, right, q, d);
    LoopEndsAt(toks, InfixNode(lv, left, toks[p], right), q, d, lv);
  }

  /** The tree of `x or y and z` starting at `p`. */
  function OrOverAndTree(toks: seq<Token>, p: nat): Expr
    requires p + 4 < |toks|
  {
    Logical(Variable(p, toks[p]), toks[p + 1], Logical(Variable(p + 2, toks[p + 2]), toks[p + 3], Variable(p + 4, toks[p + 4])))
  }

  /** `x or y and z`, for names, puts the `and` below the `or`. */
  lemma {:induction false} OrOverAnd(toks: seq<Token>, p: nat, d: seq<Diag>)
    requires Valid(toks) && p + 5 < |toks| && toks[p].kind == IDENTIFIER && toks[p + 1].kind == OR
    requires toks[p + 2].kind == IDENTIFIER && toks[p + 3].kind == AND && toks[p + 4].kind == IDENTIFIER
    requires Stops(toks[p + 5].kind, OrLevel)
    ensures Infix(toks, Cursor(p, d), OrLevel) == Parsed(OrOverAndTree(toks, p), Cursor(p + 5, d))
  {
    var right := InfixNode(AndLevel, Variable(p + 2, toks[p + 2]), toks[p + 3], Variable(p + 4, toks[p + 4]));
    assert Operand(toks, Cursor(p + 2, d), OrLevel) == Parsed(right, Cursor(p + 5, d)) by {
      AndOperand(toks, p + 2, d);
    }
    assert Infix(toks, Cursor(p, d), OrLevel) == Parsed(InfixNode(OrLevel, Variable(p, toks[p]), toks[p + 1], right), Cursor(p + 5, d)) by {
      NameOpOperand(toks, p, d, OrLevel, right, p + 5);
    }
  }

  /** `y and z` is a single operand of `or`. */
  lemma {:induction false} AndOperand(toks: seq<Token>, p: nat, d: seq<Diag>)
    requires Valid(toks) && p + 3 < |toks| && toks[p].kind == IDENTIFIER && toks[p + 1].kind == AND
    requires toks[p + 2].kind == IDENTIFIER && Stops(toks[p + 3].kind, OrLevel)
    ensures Operand(toks, Cursor(p, d), OrLevel)
      == Parsed(InfixNode(AndLevel, Variable(p, toks[p]), toks[p + 1], Variable(p + 2, toks[p + 2])), Cursor(p + 3, d))
  {
    NameOpName(toks, p, d, AndLevel);
    OperandIsTighter(toks, Cursor(p, d), OrLevel);
  }

  /** A call with one name as its argument. */
  lemma {:induction false} CallOneName(toks: seq<Token>, e: Expr, p: nat, d: seq<Diag>)
    requires Valid(toks) && p + 3 < |toks| && Fits(CallLevel, e) && Grammatical(toks, e)
    requires toks[p].kind == LEFT_PAREN && toks[p + 1].kind == IDENTIFIER && toks[p + 2].kind == RIGHT_PAREN
    ensures Fits(CallLevel, Call(e, toks[p + 2], [Variable(p + 1, toks[p + 1])]))
    ensures Grammatical(toks, Call(e, toks[p + 2], [Variable(p + 1, toks[p + 1])]))
    ensures CallRest(toks, e, Cursor(p, d)) == CallRest(toks, Call(e, toks[p + 2], [Variable(p + 1, toks[p + 1])]), Cursor(p + 3, d))
  {
    var arg := Variable(p + 1, toks[p + 1]);
    var call := Call(e, toks[p + 2], [arg]);
    assert Parser.Expression(toks, Cursor(p + 1, d)) == Parsed(arg, Cursor(p + 2, d)) by {
      AssignmentName(toks, p + 1, d);
    }
    assert FinishCall(toks, e, Cursor(p + 1, d)) == Parsed(call, Cursor(p + 3, d)) by {
      FinishCallOne(toks, e, p + 1, d, arg, p + 2);
    }
    CallStep(toks, e, p, d, call, Cursor(p + 3, d));
  }

  /** A name starts a call expression: the suffix loop runs from the next token. */
  lemma {:induction false} NameThenSuffixes(toks: seq<Token>, p: nat, d: seq<Diag>)
    requires Valid(toks) && p + 1 < |toks| && toks[p].kind == IDENTIFIER
    ensures UnaryExpr(toks, Cursor(p, d)) == CallRest(toks, Variable(p, toks[p]), Cursor(p + 1, d))
  {
    PrimaryName(toks, Cursor(p, d));
    assert Advanced(Cursor(p, d)) == Cursor(p + 1, d);
  }

  /** The tree of `x.y(z)` starting at `p`. */
  function GetCallTree(toks: seq<Token>, p: nat): Expr
    requires p + 5 < |toks|
  {
    Call(Get(Variable(p, toks[p]), toks[p + 2]), toks[p + 5], [Variable(p + 4, toks[p + 4])])
  }

  /** `x.y(z)`, for names, reads the property first and calls it. */
  lemma {:induction false} NameGetCall(toks: seq<Token>, p: nat, d: seq<Diag>)
    requires Valid(toks) && p + 6 < |toks| && toks[p].kind == IDENTIFIER && toks[p + 1].kind == DOT
    requires toks[p + 2].kind == IDENTIFIER && toks[p + 3].kind == LEFT_PAREN && toks[p + 4].kind == IDENTIFIER
    requires toks[p + 5].kind == RIGHT_PAREN && toks[p + 6].kind !in {LEFT_PAREN, DOT}
    ensures UnaryExpr(toks, Cursor(p, d)) == Parsed(GetCallTree(toks, p), Cursor(p + 6, d))
  {
    NameThenSuffixes(toks, p, d);
    GetStep(toks, Variable(p, toks[p]), p + 1, d);
    GetCallRest(toks, Get(Variable(p, toks[p]), toks[p + 2]), p + 3, d);
  }

  lemma {:induction false} GetCallRest(toks: seq<Token>, e: Expr, p: nat, d: seq<Diag>)
    requires Valid(toks) && p + 3 < |toks| && Fits(CallLevel, e) && Grammatical(toks, e)
    requires toks[p].kind == LEFT_PAREN && toks[p + 1].kind == IDENTIFIER && toks[p + 2].kind == RIGHT_PAREN
    requires toks[p + 3].kind !in {LEFT_PAREN, DOT}
    ensures CallRest(toks, e, Cursor(p, d)) == Parsed(Call(e, toks[p + 2], [Variable(p + 1, toks[p + 1])]), Cursor(p + 3, d))
  {
    CallOneName(toks, e, p, d);
    NoSuffix(toks, Call(e, toks[p + 2], [Variable(p + 1, toks[p + 1])]), Cursor(p + 3, d));
  }

  // ---------------------------------------------------------------------
  // Worked examples.

  function Name(text: string): Token {
    Token(IDENTIFIER, text, NoLiteral, 1)
  }

  function Punct(kind: TokenType, text: string): Token {
    Token(kind, text, NoLiteral, 1)
  }

  const Eof := Punct(EOF, "")

  /** `a - b - c` groups to the left: `(a - b) - c`. */
  lemma {:induction false} MinusGroupsLeft()
    ensures var toks := [Name("a"), Punct(MINUS, "-"), Name("b"), Punct(MINUS, "-"), Name("c"), Eof];
      var a, b, c := Variable(0, Name("a")), Variable(2, Name("b")), Variable(4, Name("c"));
      Parser.Expression(toks, Cursor(0, []))
        == Parsed(Binary(Binary(a, Punct(MINUS, "-"), b), Punct(MINUS, "-"), c), Cursor(5, []))
  {
    var toks := [Name("a"), Punct(MINUS, "-"), Name("b"), Punct(MINUS, "-"), Name("c"), Eof];
    assert Run(toks, 1, 2, 5, TermLevel);
    NameRun(toks, 0, [], 2, 5, TermLevel);
    ExpressionIsTerm(toks, Cursor(0, []), Parsed(LeftChain(toks, Variable(0, toks[0]), 1, 2, TermLevel), Cursor(5, [])));
  }

  /** `a = b = c` groups to the right: `a = (b = c)`. */
  lemma {:induction false} AssignGroupsRight()
    ensures var toks := [Name("a"), Punct(EQUAL, "="), Name("b"), Punct(EQUAL, "="), Name("c"), Eof];
      Parser.Expression(toks, Cursor(0, []))
        == Parsed(Assign(0, Name("a"), Assign(2, Name("b"), Variable(4, Name("c")))), Cursor(5, []))
  {
    var toks := [Name("a"), Punct(EQUAL, "="), Name("b"), Punct(EQUAL, "="), Name("c"), Eof];
    AssignTwice(toks, 0, []);
  }

  /** `-a * b` applies the `-` to `a` alone: `(-a) * b`. */
  lemma {:induction false} PrefixBindsTighter()
    ensures var toks := [Punct(MINUS, "-"), Name("a"), Punct(STAR, "*"), Name("b"), Eof];
      Parser.Expression(toks, Cursor(0, []))
        == Parsed(Binary(Unary(Punct(MINUS, "-"), Variable(1, Name("a"))), Punct(STAR, "*"), Variable(3, Name("b"))), Cursor(4, []))
  {
    var toks := [Punct(MINUS, "-"), Name("a"), Punct(STAR, "*"), Name("b"), Eof];
    PrefixThenName(toks, 0, []);
    ExpressionIsFactor(toks, Cursor(0, []), Parsed(InfixNode(FactorLevel, Unary(toks[0], Variable(1, toks[1])), toks[2], Variable(3, toks[3])), Cursor(4, [])));
  }

  /** `a or b and c` reads `and` first: `a or (b and c)`. */
  lemma {:induction false} AndBindsTighter()
    ensures var toks := [Name("a"), Punct(OR, "or"), Name("b"), Punct(AND, "and"), Name("c"), Eof];
      var a, b, c := Variable(0, Name("a")), Variable(2, Name("b")), Variable(4, Name("c"));
      Parser.Expression(toks, Cursor(0, []))
        == Parsed(Logical(a, Punct(OR, "or"), Logical(b, Punct(AND, "and"), c)), Cursor(5, []))
  {
    var toks := [Name("a"), Punct(OR, "or"), Name("b"), Punct(AND, "and"), Name("c"), Eof];
    OrOverAnd(toks, 0, []);
    ExpressionIsOr(toks, Cursor(0, []), Parsed(OrOverAndTree(toks, 0), Cursor(5, [])));
  }

  /** `a.b(c)` calls the property `b` of `a` with the argument `c`. */
  lemma {:induction false} CallOfProperty()
    ensures var toks := [Name("a"), Punct(DOT, "."), Name("b"), Punct(LEFT_PAREN, "("), Name("c"), Punct(RIGHT_PAREN, ")"), Eof];
      Parser.Expression(toks, Cursor(0, []))
        == Parsed(Call(Get(Variable(0, Name("a")), Name("b")), Punct(RIGHT_PAREN, ")"), [Variable(4, Name("c"))]), Cursor(6, []))
  {
    var toks := [Name("a"), Punct(DOT, "."), Name("b"), Punct(LEFT_PAREN, "("), Name("c"), Punct(RIGHT_PAREN, ")"), Eof];
    NameGetCall(toks, 0, []);
    ExpressionIsUnary(toks, Cursor(0, []), Parsed(GetCallTree(toks, 0), Cursor(6, [])));
  }
}
