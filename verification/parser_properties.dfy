/** Consequences of the expression grammar every parse result satisfies:
    associativity and nesting, stated on the trees themselves. */
module ParserProperties {
  import opened Wrappers
  import opened Tokens
  import opened Ast
  import opened Parser

  /** The additive operators are left-associative: in a tree of grammatical
      shape, the right operand of a `+` or `-` is never itself an
      unparenthesised `+` or `-` (nor anything looser). This is a fact about
      tree shapes only; that the parser reads `a - b - c` as `(a - b) - c`
      is `ParserExamples.MinusGroupsLeft`. */
  lemma TermLeftAssociative(toks: seq<Token>, e: Expr)
    requires Grammatical(toks, e) && e.Binary? && e.operator.kind in {MINUS, PLUS}
    ensures !(e.right.Binary? && e.right.operator.kind in {MINUS, PLUS, BANG_EQUAL, EQUAL_EQUAL, GREATER, GREATER_EQUAL, LESS, LESS_EQUAL})
    ensures !e.right.Logical? && !e.right.Assign? && !e.right.Sett?
  {
    assert Tier(e) == TermLevel;
    assert Rank(Tier(e.right)) <= Rank(FactorLevel);
  }

  /** Precedence: an operand of a parsed binary or logical operator is never
      an unparenthesised assignment; only the right-hand side of an
      assignment may be one, which makes assignment right-associative. */
  lemma AssignmentOnlyOnTheRight(toks: seq<Token>, e: Expr)
    requires Grammatical(toks, e) && (e.Binary? || e.Logical?)
    ensures !e.left.Assign? && !e.left.Sett? && !e.right.Assign? && !e.right.Sett?
  {
    assert Rank(Tier(e)) < Rank(AssignmentLevel);
  }

  /** Calls and property accesses nest to the left: the callee of a parsed
      call, and the object of a parsed property access, is a call, a
      property access or a primary expression, never an operator
      application. */
  lemma CallsNestLeft(toks: seq<Token>, e: Expr)
    requires Grammatical(toks, e) && (e.Call? || e.Get?)
    ensures var inner := if e.Call? then e.callee else e.obj;
      !inner.Binary? && !inner.Logical? && !inner.Unary? && !inner.Assign? && !inner.Sett?
  {
  }

  /** Every variable a parse produces is identified by the index of its own
      name token, so distinct variable occurrences have distinct ids. */
  lemma VariableIdsAreTokenIndices(toks: seq<Token>, e: Expr)
    requires Grammatical(toks, e) && e.Variable?
    ensures e.id < |toks| && toks[e.id] == e.name && e.name.kind == IDENTIFIER
  {
  }

  // ---------------------------------------------------------------------
  // The trees the expression parser builds are spelled by the tokens it
  // consumed.

  /** A parse succeeded without reporting anything on the way. */
  predicate Clean<T>(c: Cursor, r: Parsed<T>) {
    r.Parsed? && |r.st.diags| == |c.diags|
  }

  /** An infix node is spelled by its left operand, the operator token at
      `mid` and its right operand from `next`, in that order. */
  lemma YieldsInfix(toks: seq<Token>, lo: nat, left: Expr, mid: nat, op: Token, next: nat, right: Expr, hi: nat)
    requires Yields(toks, lo, mid, left) && mid < |toks| && toks[mid] == op
    requires next == mid + 1 && Yields(toks, next, hi, right)
    ensures Yields(toks, lo, hi, Binary(left, op, right)) && Yields(toks, lo, hi, Logical(left, op, right))
  {
    YieldsBinary(toks, lo, left, mid, op, next, right, hi);
    YieldsLogical(toks, lo, left, mid, op, next, right, hi);
  }

  lemma YieldsBinary(toks: seq<Token>, lo: nat, left: Expr, mid: nat, op: Token, next: nat, right: Expr, hi: nat)
    requires Yields(toks, lo, mid, left) && mid < |toks| && toks[mid] == op
    requires next == mid + 1 && Yields(toks, next, hi, right)
    ensures Yields(toks, lo, hi, Binary(left, op, right))
  {
    assert SpellsAt(toks, lo, Binary(left, op, right));
  }

  lemma YieldsLogical(toks: seq<Token>, lo: nat, left: Expr, mid: nat, op: Token, next: nat, right: Expr, hi: nat)
    requires Yields(toks, lo, mid, left) && mid < |toks| && toks[mid] == op
    requires next == mid + 1 && Yields(toks, next, hi, right)
    ensures Yields(toks, lo, hi, Logical(left, op, right))
  {
    assert SpellsAt(toks, lo, Logical(left, op, right));
  }

  /** An assignment to a variable is spelled by the name, `=` and the
      value; one to a property by the object, `.`, the name, `=` and the
      value. */
  lemma YieldsAssignment(toks: seq<Token>, lo: nat, target: Expr, mid: nat, next: nat, value: Expr, hi: nat)
    requires Yields(toks, lo, mid, target) && mid < |toks|
    requires toks[mid].kind == EQUAL && next == mid + 1 && Yields(toks, next, hi, value)
    ensures target.Variable? ==> Yields(toks, lo, hi, Assign(target.id, target.name, value))
    ensures target.Get? ==> Yields(toks, lo, hi, Sett(target.obj, target.name, value))
  {
  }

  /** An argument list is spelled by its first argument, then a comma and
      the rest when there is more. */
  lemma ArgsSpellCons(toks: seq<Token>, lo: nat, arg: Expr, rest: seq<Expr>)
    requires SpellsAt(toks, lo, arg)
    requires rest != [] ==>
      lo + Width(arg) < |toks| && toks[lo + Width(arg)].kind == COMMA && ArgsSpellAt(toks, lo + Width(arg) + 1, rest)
    ensures ArgsSpellAt(toks, lo, [arg] + rest)
    ensures ArgsWidth([arg] + rest) == if rest == [] then Width(arg) else Width(arg) + 1 + ArgsWidth(rest)
  {
    assert ([arg] + rest)[0] == arg;
    assert ([arg] + rest)[1..] == rest;
  }

  /** An argument, a comma and a non-empty argument list spell the longer
      list. */
  lemma ArgsSpellMore(toks: seq<Token>, lo: nat, arg: Expr, mid: nat, next: nat, rest: seq<Expr>, hi: nat)
    requires Yields(toks, lo, mid, arg) && mid < |toks| && toks[mid].kind == COMMA
    requires next == mid + 1 && rest != [] && ArgsSpellAt(toks, next, rest) && hi == next + ArgsWidth(rest)
    ensures ArgsSpellAt(toks, lo, [arg] + rest) && hi == lo + ArgsWidth([arg] + rest)
  {
    ArgsSpellCons(toks, lo, arg, rest);
  }

  /** Dropping a known prefix of a sequence leaves its next element and the
      rest. */
  lemma DropPrefix(all: seq<Expr>, prefix: seq<Expr>, e: Expr)
    requires |prefix| < |all| && all[..|prefix| + 1] == prefix + [e]
    ensures all[|prefix|..] == [e] + all[|prefix| + 1..]
  {
    assert all[|prefix|] == (prefix + [e])[|prefix|];
  }

  /** `expression` consumes exactly the source text of the tree it
      returns, unless it reported an error on the way. */
  lemma {:induction false} ExpressionYields(toks: seq<Token>, c: Cursor)
    requires Valid(toks) && c.pos < |toks|
    ensures var r := Parser.Expression(toks, c);
      Clean(c, r) ==> Yields(toks, c.pos, r.st.pos, r.value)
    decreases |toks| - c.pos, 21
  {
    AssignmentYields(toks, c);
  }

  /** `assignment`: the target, `=` and the value; a target other than a
      variable or property access is reported, so a clean parse never keeps
      one. */
  lemma {:induction false} AssignmentYields(toks: seq<Token>, c: Cursor)
    requires Valid(toks) && c.pos < |toks|
    ensures var r := Assignment(toks, c);
      Clean(c, r) ==> Yields(toks, c.pos, r.st.pos, r.value)
    decreases |toks| - c.pos, 20
  {
    InfixYields(toks, c, OrLevel);
    var t := Infix(toks, c, OrLevel);
    if t.Parsed? && Check(toks, t.st.pos, EQUAL) {
      AssignmentYields(toks, Advanced(t.st));
      var v := Assignment(toks, Advanced(t.st));
      if v.Parsed? && |v.st.diags| == |c.diags| {
        assert |t.st.diags| == |c.diags|;
        YieldsAssignment(toks, c.pos, t.value, t.st.pos, Advanced(t.st).pos, v.value, v.st.pos);
      }
    }
  }

  /** An infix level: an operand and then the operator loop. */
  lemma {:induction false} InfixYields(toks: seq<Token>, c: Cursor, lv: Prec)
    requires Valid(toks) && c.pos < |toks| && IsInfix(lv)
    ensures var r := Infix(toks, c, lv);
      Clean(c, r) ==> Yields(toks, c.pos, r.st.pos, r.value)
    decreases |toks| - c.pos, 2 * Rank(lv) + 1
  {
    OperandYields(toks, c, lv);
    var o := Operand(toks, c, lv);
    if o.Parsed? {
      InfixRestYields(toks, c.pos, o.value, o.st, lv);
    }
  }

  lemma {:induction false} OperandYields(toks: seq<Token>, c: Cursor, lv: Prec)
    requires Valid(toks) && c.pos < |toks| && IsInfix(lv)
    ensures var r := Operand(toks, c, lv);
      Clean(c, r) ==> Yields(toks, c.pos, r.st.pos, r.value)
    decreases |toks| - c.pos, 2 * Rank(lv)
  {
    if lv == FactorLevel {
      UnaryYields(toks, c);
    } else {
      InfixYields(toks, c, Tighter(lv));
    }
  }

  /** The operator loop: when the tokens before the cursor spell the tree
      so far, each operator and operand extends the spelled text. */
  lemma {:induction false} InfixRestYields(toks: seq<Token>, lo: nat, left: Expr, c: Cursor, lv: Prec)
    requires Valid(toks) && c.pos < |toks| && IsInfix(lv)
    requires Fits(lv, left) && Grammatical(toks, left)
    ensures var r := InfixRest(toks, left, c, lv);
      Clean(c, r) && Yields(toks, lo, c.pos, left) ==> Yields(toks, lo, r.st.pos, r.value)
    decreases |toks| - c.pos, 2 * Rank(lv)
  {
    if CheckAny(toks, c.pos, Operators(lv)) {
      OperatorYields(toks, lo, left, c, lv);
    }
  }

  /** The node of one operator iteration is spelled by its operands around
      the operator. */
  lemma YieldsNode(toks: seq<Token>, lo: nat, left: Expr, mid: nat, op: Token, next: nat, right: Expr, hi: nat, lv: Prec)
    requires Yields(toks, lo, mid, left) && mid < |toks| && toks[mid] == op
    requires next == mid + 1 && Yields(toks, next, hi, right)
    ensures Yields(toks, lo, hi, InfixNode(lv, left, op, right))
  {
    YieldsInfix(toks, lo, left, mid, op, next, right, hi);
  }

  /** The operator loop, unrolled once. */
  lemma InfixRestStep(toks: seq<Token>, left: Expr, c: Cursor, lv: Prec, right: Expr, after: Cursor)
    requires Valid(toks) && c.pos < |toks| && IsInfix(lv) && CheckAny(toks, c.pos, Operators(lv))
    requires Fits(lv, left) && Grammatical(toks, left)
    requires Operand(toks, Advanced(c), lv) == Parsed(right, after)
    ensures Fits(lv, InfixNode(lv, left, toks[c.pos], right)) && Grammatical(toks, InfixNode(lv, left, toks[c.pos], right))
    ensures InfixRest(toks, left, c, lv) == InfixRest(toks, InfixNode(lv, left, toks[c.pos], right), after, lv)
  {
    NodeGrammatical(toks, lv, left, toks[c.pos], right);
  }

  /** One iteration of the operator loop. */
  lemma {:induction false} OperatorYields(toks: seq<Token>, lo: nat, left: Expr, c: Cursor, lv: Prec)
    requires Valid(toks) && c.pos < |toks| && IsInfix(lv) && CheckAny(toks, c.pos, Operators(lv))
    requires Fits(lv, left) && Grammatical(toks, left)
    ensures var r := InfixRest(toks, left, c, lv);
      Clean(c, r) && Yields(toks, lo, c.pos, left) ==> Yields(toks, lo, r.st.pos, r.value)
    decreases |toks| - c.pos, 2 * Rank(lv) - 1
  {
    var o := Operand(toks, Advanced(c), lv);
    if o.Parsed? {
      var node := InfixNode(lv, left, toks[c.pos], o.value);
      InfixRestStep(toks, left, c, lv, o.value, o.st);
      OperandYields(toks, Advanced(c), lv);
      if Clean(c, InfixRest(toks, left, c, lv)) {
        assert |o.st.diags| == |c.diags|;
      }
      NodeYields(toks, lo, left, c.pos, lv, Advanced(c).pos, o.value, o.st.pos);
      InfixRestYields(toks, lo, node, o.st, lv);
    }
  }

  /** `YieldsNode` as an implication, for use where the operands' spelling
      is itself conditional. */
  lemma NodeYields(toks: seq<Token>, lo: nat, left: Expr, mid: nat, lv: Prec, next: nat, right: Expr, hi: nat)
    requires mid < |toks| && next == mid + 1
    ensures Yields(toks, lo, mid, left) && Yields(toks, next, hi, right)
      ==> Yields(toks, lo, hi, InfixNode(lv, left, toks[mid], right))
  {
    if Yields(toks, lo, mid, left) && Yields(toks, next, hi, right) {
      YieldsNode(toks, lo, left, mid, toks[mid], next, right, hi, lv);
    }
  }

  lemma {:induction false} UnaryYields(toks: seq<Token>, c: Cursor)
    requires Valid(toks) && c.pos < |toks|
    ensures var r := UnaryExpr(toks, c);
      Clean(c, r) ==> Yields(toks, c.pos, r.st.pos, r.value)
    decreases |toks| - c.pos, 4
  {
    if CheckAny(toks, c.pos, {BANG, MINUS}) {
      UnaryYields(toks, Advanced(c));
      var u := UnaryExpr(toks, Advanced(c));
      if u.Parsed? {
        assert UnaryExpr(toks, c) == Parsed(Unary(toks[c.pos], u.value), u.st);
        PrefixYields(toks, c.pos, Advanced(c).pos, u.value, u.st.pos);
      }
    } else {
      CallExprYields(toks, c);
    }
  }

  /** A prefix operator and its operand spell the unary node. */
  lemma PrefixYields(toks: seq<Token>, lo: nat, next: nat, right: Expr, hi: nat)
    requires lo < |toks| && next == lo + 1 && toks[lo].kind in {BANG, MINUS}
    ensures Yields(toks, next, hi, right) ==> Yields(toks, lo, hi, Unary(toks[lo], right))
  {
    if Yields(toks, next, hi, right) {
      assert SpellsAt(toks, lo, Unary(toks[lo], right));
    }
  }

  lemma {:induction false} CallExprYields(toks: seq<Token>, c: Cursor)
    requires Valid(toks) && c.pos < |toks|
    ensures var r := CallExpr(toks, c);
      Clean(c, r) ==> Yields(toks, c.pos, r.st.pos, r.value)
    decreases |toks| - c.pos, 3
  {
    PrimaryYields(toks, c);
    var p := Primary(toks, c);
    if p.Parsed? {
      assert CallExpr(toks, c) == CallRest(toks, p.value, p.st);
      if Clean(c, CallExpr(toks, c)) {
        assert |p.st.diags| == |c.diags|;
      }
      CallRestYields(toks, c.pos, p.value, p.st);
    }
  }

  /** A call node is spelled by its callee, `(`, the arguments and the
      closing parenthesis. */
  lemma YieldsCall(toks: seq<Token>, lo: nat, callee: Expr, mid: nat, next: nat, args: seq<Expr>, paren: Token, hi: nat)
    requires Yields(toks, lo, mid, callee) && mid < |toks| && toks[mid].kind == LEFT_PAREN
    requires next == mid + 1 && ArgsSpellAt(toks, next, args) && hi == next + ArgsWidth(args) + 1 && hi <= |toks|
    requires toks[next + ArgsWidth(args)] == paren && paren.kind == RIGHT_PAREN
    ensures Yields(toks, lo, hi, Call(callee, paren, args))
  {
    assert SpellsAt(toks, lo, Call(callee, paren, args));
  }

  /** A property access is spelled by its object, `.` and the name. */
  lemma YieldsGet(toks: seq<Token>, lo: nat, obj: Expr, mid: nat, name: Token)
    requires Yields(toks, lo, mid, obj) && mid + 1 < |toks| && toks[mid].kind == DOT
    requires toks[mid + 1] == name && name.kind == IDENTIFIER
    ensures Yields(toks, lo, mid + 2, Get(obj, name))
  {
    assert SpellsAt(toks, lo, Get(obj, name));
  }

  /** A successful property access takes exactly the name token. */
  lemma PropertyStep(toks: seq<Token>, e: Expr, c: Cursor)
    requires Valid(toks) && c.pos < |toks|
    requires Fits(CallLevel, e) && Grammatical(toks, e)
    ensures Property(toks, e, c).Parsed? ==> Property(toks, e, c) == Parsed(Get(e, toks[c.pos]), Advanced(c))
  {
  }

  /** The suffix loop: argument lists and property accesses extend the
      spelled text of the callee. */
  lemma {:induction false} CallRestYields(toks: seq<Token>, lo: nat, e: Expr, c: Cursor)
    requires Valid(toks) && c.pos < |toks|
    requires Fits(CallLevel, e) && Grammatical(toks, e)
    ensures var r := CallRest(toks, e, c);
      Clean(c, r) && Yields(toks, lo, c.pos, e) ==> Yields(toks, lo, r.st.pos, r.value)
    decreases |toks| - c.pos, 2
  {
    if Check(toks, c.pos, LEFT_PAREN) {
      CallSuffixYields(toks, lo, e, c);
    } else if Check(toks, c.pos, DOT) {
      GetSuffixYields(toks, lo, e, c);
    }
  }

  /** One argument list of the suffix loop. */
  lemma {:induction false} CallSuffixYields(toks: seq<Token>, lo: nat, e: Expr, c: Cursor)
    requires Valid(toks) && c.pos < |toks| && Check(toks, c.pos, LEFT_PAREN)
    requires Fits(CallLevel, e) && Grammatical(toks, e)
    ensures var r := CallRest(toks, e, c);
      Clean(c, r) && Yields(toks, lo, c.pos, e) ==> Yields(toks, lo, r.st.pos, r.value)
    decreases |toks| - c.pos, 1
  {
    var call := FinishCall(toks, e, Advanced(c));
    if call.Parsed? {
      assert CallRest(toks, e, c) == CallRest(toks, call.value, call.st);
      CallRestYields(toks, lo, call.value, call.st);
      FinishCallYields(toks, lo, e, c.pos, Advanced(c));
    }
  }

  /** One property access of the suffix loop. */
  lemma {:induction false} GetSuffixYields(toks: seq<Token>, lo: nat, e: Expr, c: Cursor)
    requires Valid(toks) && c.pos < |toks| && !Check(toks, c.pos, LEFT_PAREN) && Check(toks, c.pos, DOT)
    requires Fits(CallLevel, e) && Grammatical(toks, e)
    ensures var r := CallRest(toks, e, c);
      Clean(c, r) && Yields(toks, lo, c.pos, e) ==> Yields(toks, lo, r.st.pos, r.value)
    decreases |toks| - c.pos, 1
  {
    PropertyStep(toks, e, Advanced(c));
    if Property(toks, e, Advanced(c)).Parsed? {
      var get := Get(e, toks[c.pos + 1]);
      var after := Cursor(c.pos + 2, c.diags);
      assert Advanced(Advanced(c)) == after;
      CallRestAfterGet(toks, e, c, get, after);
      GetThenRestYields(toks, lo, e, c.pos, c.diags);
    }
  }

  /** The suffix loop after `.name`, with the property access spelled. */
  lemma {:induction false} GetThenRestYields(toks: seq<Token>, lo: nat, e: Expr, p: nat, d: seq<Diag>)
    requires Valid(toks) && p + 2 < |toks| && toks[p].kind == DOT && toks[p + 1].kind == IDENTIFIER
    requires Fits(CallLevel, Get(e, toks[p + 1])) && Grammatical(toks, Get(e, toks[p + 1]))
    ensures var r := CallRest(toks, Get(e, toks[p + 1]), Cursor(p + 2, d));
      Clean(Cursor(p + 2, d), r) && Yields(toks, lo, p, e) ==> Yields(toks, lo, r.st.pos, r.value)
    decreases |toks| - p, 0
  {
    if Yields(toks, lo, p, e) {
      YieldsGet(toks, lo, e, p, toks[p + 1]);
      CallRestYields(toks, lo, Get(e, toks[p + 1]), Cursor(p + 2, d));
    }
  }

  /** The suffix loop goes on from a parsed property access. */
  lemma CallRestAfterGet(toks: seq<Token>, e: Expr, c: Cursor, get: Expr, after: Cursor)
    requires Valid(toks) && c.pos < |toks| && !Check(toks, c.pos, LEFT_PAREN) && Check(toks, c.pos, DOT)
    requires Fits(CallLevel, e) && Grammatical(toks, e)
    requires Property(toks, e, Advanced(c)) == Parsed(get, after)
    ensures after.pos < |toks| && Fits(CallLevel, get) && Grammatical(toks, get)
    ensures CallRest(toks, e, c) == CallRest(toks, get, after)
  {
  }

  /** After `(`: the arguments and the closing parenthesis complete the
      call the callee, spelled before the `(`, starts. */
  lemma {:induction false} FinishCallYields(toks: seq<Token>, lo: nat, callee: Expr, mid: nat, c: Cursor)
    requires Valid(toks) && c.pos < |toks| && c.pos == mid + 1 && toks[mid].kind == LEFT_PAREN
    requires Fits(CallLevel, callee) && Grammatical(toks, callee)
    ensures var r := FinishCall(toks, callee, c);
      Clean(c, r) && Yields(toks, lo, mid, callee) ==> Yields(toks, lo, r.st.pos, r.value)
    decreases |toks| - c.pos, 25
  {
    if Check(toks, c.pos, RIGHT_PAREN) {
      if Yields(toks, lo, mid, callee) {
        YieldsCall(toks, lo, callee, mid, c.pos, [], toks[c.pos], c.pos + 1);
      }
    } else {
      ArgumentsYields(toks, [], c);
      var a := Arguments(toks, [], c);
      if a.Parsed? {
        assert a.value[0..] == a.value;
        ArgumentListYields(toks, lo, callee, mid, c, a.value, a.st);
      }
    }
  }

  /** The argument-list branch of `FinishCallYields`, over the parsed list. */
  lemma ArgumentListYields(toks: seq<Token>, lo: nat, callee: Expr, mid: nat, c: Cursor, args: seq<Expr>, after: Cursor)
    requires Valid(toks) && c.pos < |toks| && c.pos == mid + 1 && toks[mid].kind == LEFT_PAREN
    requires Fits(CallLevel, callee) && Grammatical(toks, callee) && !Check(toks, c.pos, RIGHT_PAREN)
    requires Arguments(toks, [], c) == Parsed(args, after)
    requires |after.diags| == |c.diags| ==> ArgsSpellAt(toks, c.pos, args) && after.pos == c.pos + ArgsWidth(args)
    ensures var r := FinishCall(toks, callee, c);
      Clean(c, r) && Yields(toks, lo, mid, callee) ==> Yields(toks, lo, r.st.pos, r.value)
  {
    FinishCallArgs(toks, callee, c, args, after);
    var r := FinishCall(toks, callee, c);
    if Clean(c, r) && Yields(toks, lo, mid, callee) {
      assert Check(toks, after.pos, RIGHT_PAREN);
      assert r == Parsed(Call(callee, toks[after.pos], args), Advanced(after));
      ClosedCallYields(toks, lo, callee, mid, c.pos, args, after.pos);
    }
  }

  /** A call whose arguments are spelled from `next` and closed by the `)`
      at `close` spans from the callee's start to just past that `)`. */
  lemma ClosedCallYields(toks: seq<Token>, lo: nat, callee: Expr, mid: nat, next: nat, args: seq<Expr>, close: nat)
    requires Valid(toks) && close < |toks| && Check(toks, close, RIGHT_PAREN)
    requires next == mid + 1 && close == next + ArgsWidth(args) && toks[mid].kind == LEFT_PAREN
    requires ArgsSpellAt(toks, next, args)
    requires Yields(toks, lo, mid, callee)
    ensures Yields(toks, lo, close + 1, Call(callee, toks[close], args))
  {
    YieldsCall(toks, lo, callee, mid, next, args, toks[close], close + 1);
  }

  /** `finishCall` with arguments: the call closes at the `)` after the list. */
  lemma FinishCallArgs(toks: seq<Token>, callee: Expr, c: Cursor, args: seq<Expr>, after: Cursor)
    requires Valid(toks) && c.pos < |toks| && Fits(CallLevel, callee) && Grammatical(toks, callee)
    requires !Check(toks, c.pos, RIGHT_PAREN) && Arguments(toks, [], c) == Parsed(args, after)
    ensures after.pos < |toks|
    ensures Check(toks, after.pos, RIGHT_PAREN) ==>
      FinishCall(toks, callee, c) == Parsed(Call(callee, toks[after.pos], args), Advanced(after))
    ensures !Check(toks, after.pos, RIGHT_PAREN) ==> FinishCall(toks, callee, c).Failed?
  {
  }

  /** The argument loop: the new arguments are spelled, comma-separated,
      from where the loop started. */
  lemma {:induction false} ArgumentsYields(toks: seq<Token>, args: seq<Expr>, c: Cursor)
    requires Valid(toks) && c.pos < |toks|
    requires forall a :: a in args ==> Grammatical(toks, a)
    ensures var r := Arguments(toks, args, c);
      Clean(c, r) ==>
        ArgsSpellAt(toks, c.pos, r.value[|args|..]) && r.st.pos == c.pos + ArgsWidth(r.value[|args|..])
    decreases |toks| - c.pos, 24
  {
    ExpressionYields(toks, c);
    var e := Parser.Expression(toks, c);
    if e.Parsed? {
      if Check(toks, e.st.pos, COMMA) {
        MoreArgumentsYields(toks, args, c);
      } else if |e.st.diags| == |c.diags| {
        assert Arguments(toks, args, c) == Parsed(args + [e.value], e.st);
        assert (args + [e.value])[|args|..] == [e.value] + [];
        ArgsSpellCons(toks, c.pos, e.value, []);
      }
    }
  }

  /** An argument followed by a comma, and the loop from there. */
  lemma {:induction false} MoreArgumentsYields(toks: seq<Token>, args: seq<Expr>, c: Cursor)
    requires Valid(toks) && c.pos < |toks|
    requires forall a :: a in args ==> Grammatical(toks, a)
    requires Parser.Expression(toks, c).Parsed? && Check(toks, Parser.Expression(toks, c).st.pos, COMMA)
    ensures var r := Arguments(toks, args, c);
      Clean(c, r) ==>
        ArgsSpellAt(toks, c.pos, r.value[|args|..]) && r.st.pos == c.pos + ArgsWidth(r.value[|args|..])
    decreases |toks| - c.pos, 23
  {
    var e := Parser.Expression(toks, c);
    var more := args + [e.value];
    assert Arguments(toks, args, c) == Arguments(toks, more, Advanced(e.st));
    ArgumentsYields(toks, more, Advanced(e.st));
    var r := Arguments(toks, more, Advanced(e.st));
    if Clean(c, r) {
      ExpressionYields(toks, c);
      assert |e.st.diags| == |c.diags|;
      DropPrefix(r.value, args, e.value);
      ArgsSpellMore(toks, c.pos, e.value, e.st.pos, Advanced(e.st).pos, r.value[|more|..], r.st.pos);
    }
  }

  /** After the `(` at `open`: the inner expression and `)`. */
  lemma {:induction false} GroupedYields(toks: seq<Token>, open: nat, c: Cursor)
    requires Valid(toks) && c.pos < |toks| && c.pos == open + 1
    ensures var r := Grouped(toks, c);
      Clean(c, r) && toks[open].kind == LEFT_PAREN ==> Yields(toks, open, r.st.pos, r.value)
    decreases |toks| - c.pos, 23
  {
    var e := Parser.Expression(toks, c);
    if e.Parsed? && Check(toks, e.st.pos, RIGHT_PAREN) {
      assert Grouped(toks, c) == Parsed(Grouping(e.value), Advanced(e.st));
      InnerYields(toks, open, c, e.value, e.st);
    }
  }

  /** The inner expression of a grouping, closed by the `)` at `after`. */
  lemma {:induction false} InnerYields(toks: seq<Token>, open: nat, c: Cursor, inner: Expr, after: Cursor)
    requires Valid(toks) && c.pos < |toks| && c.pos == open + 1
    requires Parser.Expression(toks, c) == Parsed(inner, after) && Check(toks, after.pos, RIGHT_PAREN)
    ensures |after.diags| == |c.diags| && toks[open].kind == LEFT_PAREN
      ==> Yields(toks, open, after.pos + 1, Grouping(inner))
    decreases |toks| - c.pos, 22
  {
    ExpressionYields(toks, c);
    GroupingYields(toks, open, c.pos, inner, after.pos);
  }

  /** A grouping is spelled by `(`, its inner expression and `)`. */
  lemma GroupingYields(toks: seq<Token>, open: nat, next: nat, inner: Expr, close: nat)
    requires next == open + 1 && open < close < |toks|
    ensures toks[open].kind == LEFT_PAREN && Yields(toks, next, close, inner) && toks[close].kind == RIGHT_PAREN
      ==> Yields(toks, open, close + 1, Grouping(inner))
  {
    if toks[open].kind == LEFT_PAREN && Yields(toks, next, close, inner) && toks[close].kind == RIGHT_PAREN {
      assert SpellsAt(toks, open, Grouping(inner));
    }
  }


  lemma {:induction false} PrimaryYields(toks: seq<Token>, c: Cursor)
    requires Valid(toks) && c.pos < |toks|
    ensures var r := Primary(toks, c);
      Clean(c, r) ==> Yields(toks, c.pos, r.st.pos, r.value)
    decreases |toks| - c.pos, 0
  {
    if Check(toks, c.pos, LEFT_PAREN) {
      assert Primary(toks, c) == Grouped(toks, Advanced(c));
      GroupedYields(toks, c.pos, Advanced(c));
    } else {
      AtomPrimaryYields(toks, c);
    }
  }

  /** `primary` other than a grouping: one token. */
  lemma AtomPrimaryYields(toks: seq<Token>, c: Cursor)
    requires Valid(toks) && c.pos < |toks| && !Check(toks, c.pos, LEFT_PAREN)
    ensures var r := Primary(toks, c);
      Clean(c, r) ==> Yields(toks, c.pos, r.st.pos, r.value)
  {
    if CheckAny(toks, c.pos, {FALSE, TRUE, NIL, NUMBER, STRING}) {
      assert Primary(toks, c) == Parsed(Literal(TokenLiteral(toks[c.pos])), Advanced(c));
      AtomYields(toks, c.pos, Literal(TokenLiteral(toks[c.pos])));
    } else if Check(toks, c.pos, THIS) {
      assert Primary(toks, c) == Parsed(This(c.pos, toks[c.pos]), Advanced(c));
      AtomYields(toks, c.pos, This(c.pos, toks[c.pos]));
    } else if Check(toks, c.pos, IDENTIFIER) {
      assert Primary(toks, c) == Parsed(Variable(c.pos, toks[c.pos]), Advanced(c));
      AtomYields(toks, c.pos, Variable(c.pos, toks[c.pos]));
    }
  }

  /** A one-token primary made from the token at `p` spans just that token. */
  lemma AtomYields(toks: seq<Token>, p: nat, e: Expr)
    requires p < |toks|
    requires || (toks[p].kind in {FALSE, TRUE, NIL, NUMBER, STRING} && e == Literal(TokenLiteral(toks[p])))
             || (toks[p].kind == THIS && e == This(p, toks[p]))
             || (toks[p].kind == IDENTIFIER && e == Variable(p, toks[p]))
    ensures Yields(toks, p, p + 1, e)
  {
  }
}
