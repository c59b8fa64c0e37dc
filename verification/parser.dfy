/** The recursive-descent parser: from the scanner's tokens to statements,
    with precedence climbing for expressions, `for` desugaring, restricted
    assignment targets, and recovery from errors by synchronizing. */
module Parser {
  import opened Wrappers
  import opened Tokens
  import opened Ast

  /** A token sequence the parser can run over: non-empty and ending in EOF,
      as `scanTokens` always produces. */
  predicate Valid(toks: seq<Token>) {
    |toks| > 0 && toks[|toks| - 1].kind == EOF
  }

  /** The parser's mutable state: the cursor and the diagnostics reported so
      far. */
  datatype Cursor = Cursor(pos: nat, diags: seq<Diag>)

  /** The outcome of a parsing function: a value and the state after it, or
      a thrown parse error with the state at the throw. */
  datatype Parsed<T> = Parsed(value: T, st: Cursor) | Failed(st: Cursor)

  /** `isAtEnd`: the cursor rests on an EOF token. */
  predicate AtEnd(toks: seq<Token>, pos: nat)
    requires Valid(toks) && pos < |toks|
    ensures !AtEnd(toks, pos) ==> pos + 1 < |toks|
  {
    toks[pos].kind == EOF
  }

  /** `check`: false at EOF, otherwise whether the current token has the
      given kind. */
  predicate Check(toks: seq<Token>, pos: nat, kind: TokenType)
    requires Valid(toks) && pos < |toks|
    ensures Check(toks, pos, kind) ==> pos + 1 < |toks|
  {
    !AtEnd(toks, pos) && toks[pos].kind == kind
  }

  /** `match` over several kinds: whether the current token has one of them. */
  predicate CheckAny(toks: seq<Token>, pos: nat, kinds: set<TokenType>)
    requires Valid(toks) && pos < |toks|
    ensures CheckAny(toks, pos, kinds) ==> pos + 1 < |toks|
  {
    !AtEnd(toks, pos) && toks[pos].kind in kinds
  }

  /** `advance`: the next position, except that the cursor never moves past
      an EOF token, so it always indexes a token. */
  function Advance(toks: seq<Token>, pos: nat): (next: nat)
    requires Valid(toks) && pos < |toks|
    ensures next < |toks|
    ensures next == (if AtEnd(toks, pos) then pos else pos + 1)
  {
    if AtEnd(toks, pos) then pos else pos + 1
  }

  /** The state after consuming the current token. */
  function Advanced(c: Cursor): Cursor {
    c.(pos := c.pos + 1)
  }

  /** `error`: the state with a diagnostic for `token` appended. */
  function Report(c: Cursor, token: Token, message: string): Cursor {
    c.(diags := c.diags + [TokenError(token, message)])
  }

  // ---------------------------------------------------------------------
  // Messages of the parse errors (those of `fun` that name the kind of
  // function are built where they are reported).

  const InvalidAssignmentTarget: string := "Invalid assignment target."
  const ExpectPropertyName: string := "Expect property name after '.'."
  const ExpectParenAfterArgs: string := "Expect ')' after args."
  const ExpectParenAfterExpression: string := "Expect ')' after expression."
  const ExpectExpression: string := "Expect expression."
  const ExpectClassName: string := "Expect class name."
  const ExpectFunctionName: string := "Expect function name."
  const ExpectBraceBeforeClassBody: string := "Expect '{' before class body."
  const ExpectBraceAfterClassBody: string := "Expect '}' after class body."
  const ExpectParenAfterParameters: string := "Expect ')' after parameters."
  const TooManyParameters: string := "Can't have more than 255 parameters."
  const ExpectParameterName: string := "Expect parameter name."
  const ExpectParenAfterFor: string := "Expect '(' after 'for'."
  const ExpectSemicolonAfterCondition: string := "Expect ';' after loop condition."
  const ExpectParenAfterForClauses: string := "Expect ')' after for clauses."
  const ExpectParenAfterIf: string := "Expect '(' after 'if'."
  const ExpectParenAfterIfCondition: string := "Expect ')' after if condition."
  const ExpectSemicolonAfterValue: string := "Expect ';' after value."
  const ExpectSemicolonAfterReturnValue: string := "Expect ';' after return value."
  const ExpectVariableName: string := "Expect variable name."
  const ExpectSemicolonAfterVar: string := "Expect ';' after variable declaration."
  const ExpectParenAfterWhile: string := "Expect '(' after 'while'."
  const ExpectParenAfterCondition: string := "Expect ')' after condition."
  const ExpectSemicolonAfterExpression: string := "Expect ';' after expression."
  const ExpectBraceAfterBlock: string := "Expect '}' after block."

  /** A parsing step moved forward within the tokens and did not retract
      diagnostics. */
  predicate Moves(toks: seq<Token>, c: Cursor, after: Cursor) {
    c.pos <= after.pos < |toks| && |c.diags| <= |after.diags|
  }

  /** Every thrown parse error was reported first. */
  predicate Reported<T>(c: Cursor, r: Parsed<T>) {
    r.Failed? ==> |c.diags| < |r.st.diags|
  }

  /** `consume`: the current token when it has the expected kind; otherwise
      the error is reported at the current token and thrown. */
  function Consume(toks: seq<Token>, c: Cursor, kind: TokenType, message: string): (r: Parsed<Token>)
    requires Valid(toks) && c.pos < |toks|
    ensures Moves(toks, c, r.st)
    ensures r.Parsed? <==> Check(toks, c.pos, kind)
    ensures r.Parsed? ==> r.value == toks[c.pos] && r.st == Advanced(c)
    ensures r.Failed? ==> r.st == Report(c, toks[c.pos], message)
  {
    if Check(toks, c.pos, kind) then Parsed(toks[c.pos], Advanced(c))
    else Failed(Report(c, toks[c.pos], message))
  }

  // ---------------------------------------------------------------------
  // The expression grammar, stated independently of the parsing functions.

  /** Precedence levels, loosest first. */
  datatype Prec =
    | AssignmentLevel | OrLevel | AndLevel | EqualityLevel | ComparisonLevel
    | TermLevel | FactorLevel | UnaryLevel | CallLevel | PrimaryLevel

  /** How loosely a level binds: assignment binds loosest. */
  function Rank(lv: Prec): nat {
    match lv
    case AssignmentLevel => 10
    case OrLevel => 9
    case AndLevel => 8
    case EqualityLevel => 7
    case ComparisonLevel => 6
    case TermLevel => 5
    case FactorLevel => 4
    case UnaryLevel => 3
    case CallLevel => 2
    case PrimaryLevel => 1
  }

  /** The levels built by a left-associative loop of infix operators. */
  predicate IsInfix(lv: Prec) {
    lv in {OrLevel, AndLevel, EqualityLevel, ComparisonLevel, TermLevel, FactorLevel}
  }

  /** The operator kinds of an infix level. */
  function Operators(lv: Prec): set<TokenType>
    requires IsInfix(lv)
  {
    match lv
    case OrLevel => {OR}
    case AndLevel => {AND}
    case EqualityLevel => {BANG_EQUAL, EQUAL_EQUAL}
    case ComparisonLevel => {GREATER, GREATER_EQUAL, LESS, LESS_EQUAL}
    case TermLevel => {MINUS, PLUS}
    case FactorLevel => {SLASH, STAR}
  }

  /** The next tighter level: the operands of an infix level. */
  function Tighter(lv: Prec): (next: Prec)
    requires IsInfix(lv)
    ensures Rank(next) == Rank(lv) - 1
  {
    match lv
    case OrLevel => AndLevel
    case AndLevel => EqualityLevel
    case EqualityLevel => ComparisonLevel
    case ComparisonLevel => TermLevel
    case TermLevel => FactorLevel
    case FactorLevel => UnaryLevel
  }

  /** The level of an expression's root node: the loosest level at which it
      can appear without parentheses. */
  function Tier(e: Expr): Prec {
    match e
    case Assign(_, _, _) => AssignmentLevel
    case Sett(_, _, _) => AssignmentLevel
    case Logical(_, op, _) => if op.kind == OR then OrLevel else AndLevel
    case Binary(_, op, _) =>
      if op.kind in Operators(EqualityLevel) then EqualityLevel
      else if op.kind in Operators(ComparisonLevel) then ComparisonLevel
      else if op.kind in Operators(TermLevel) then TermLevel
      else FactorLevel
    case Unary(_, _) => UnaryLevel
    case Call(_, _, _) => CallLevel
    case Get(_, _) => CallLevel
    case _ => PrimaryLevel
  }

  /** `e` may stand where an expression of level `lv` is expected. */
  predicate Fits(lv: Prec, e: Expr) {
    Rank(Tier(e)) <= Rank(lv)
  }

  /** Shape conditions that every tree the parser returns meets: each infix
      node's left operand is at its own level and its right operand one
      level tighter, operators and names have the right kinds, assignment
      targets are variables or property gets, and every identified node
      carries the index of its name token. The conditions are necessary,
      not sufficient: they do not say which tokens the tree was read from
      (that is `SpellsAt`) nor that the parser would read those tokens to
      this tree. */
  predicate Grammatical(toks: seq<Token>, e: Expr) {
    match e
    case Assign(id, name, value) =>
      id < |toks| && toks[id] == name && name.kind == IDENTIFIER && Grammatical(toks, value)
    case Sett(obj, name, value) =>
      name.kind == IDENTIFIER && Fits(CallLevel, obj) && Grammatical(toks, obj) && Grammatical(toks, value)
    case Logical(left, op, right) =>
      op.kind in {OR, AND}
      && Fits(Tier(e), left) && Fits(Tighter(Tier(e)), right)
      && Grammatical(toks, left) && Grammatical(toks, right)
    case Binary(left, op, right) =>
      op.kind in Operators(EqualityLevel) + Operators(ComparisonLevel) + Operators(TermLevel) + Operators(FactorLevel)
      && Fits(Tier(e), left) && Fits(Tighter(Tier(e)), right)
      && Grammatical(toks, left) && Grammatical(toks, right)
    case Unary(op, right) =>
      op.kind in {BANG, MINUS} && Fits(UnaryLevel, right) && Grammatical(toks, right)
    case Call(callee, paren, args) =>
      paren.kind == RIGHT_PAREN && Fits(CallLevel, callee) && Grammatical(toks, callee)
      && forall a :: a in args ==> Grammatical(toks, a)
    case Get(obj, name) =>
      name.kind == IDENTIFIER && Fits(CallLevel, obj) && Grammatical(toks, obj)
    case Grouping(inner) => Grammatical(toks, inner)
    case Literal(_) => true
    case Variable(id, name) => id < |toks| && toks[id] == name && name.kind == IDENTIFIER
    case This(id, keyword) => id < |toks| && toks[id] == keyword && keyword.kind == THIS
    case Super(_, _) => false
  }

  /** The number of tokens the source text of `e` occupies, with a `(` and
      a `)` for each grouping and a `,` between arguments. */
  function Width(e: Expr): (w: nat)
    ensures w > 0
    decreases e, 1
  {
    match e
    case Assign(_, _, value) => 2 + Width(value)
    case Sett(obj, _, value) => Width(obj) + 3 + Width(value)
    case Logical(left, _, right) => Width(left) + 1 + Width(right)
    case Binary(left, _, right) => Width(left) + 1 + Width(right)
    case Unary(_, right) => 1 + Width(right)
    case Call(callee, _, args) => Width(callee) + 2 + ArgsWidth(args)
    case Get(obj, _) => Width(obj) + 2
    case Grouping(inner) => Width(inner) + 2
    case Super(_, _) => 3
    case _ => 1
  }

  /** The number of tokens of a comma-separated argument list. */
  function ArgsWidth(args: seq<Expr>): nat
    decreases args, 0
  {
    if args == [] then 0
    else if |args| == 1 then Width(args[0])
    else Width(args[0]) + 1 + ArgsWidth(args[1..])
  }

  /** The tokens from index `lo` on are the source text of `e`: each leaf is
      the token it was made from (a literal its token's value, a variable or
      `this` the token at its own id), each operator and name is the token
      at its place, and the punctuation in between has the right kinds. This
      is the grammar read backwards, independent of the parsing functions. */
  predicate SpellsAt(toks: seq<Token>, lo: nat, e: Expr)
    decreases e, 1
  {
    lo + Width(e) <= |toks| &&
    match e
    case Literal(v) =>
      toks[lo].kind in {FALSE, TRUE, NIL, NUMBER, STRING} && v == TokenLiteral(toks[lo])
    case Variable(id, name) => id == lo && toks[lo] == name && name.kind == IDENTIFIER
    case This(id, keyword) => id == lo && toks[lo] == keyword && keyword.kind == THIS
    case Grouping(inner) =>
      toks[lo].kind == LEFT_PAREN && SpellsAt(toks, lo + 1, inner) && toks[lo + 1 + Width(inner)].kind == RIGHT_PAREN
    case Unary(op, right) => toks[lo] == op && op.kind in {BANG, MINUS} && SpellsAt(toks, lo + 1, right)
    case Binary(left, op, right) =>
      SpellsAt(toks, lo, left) && toks[lo + Width(left)] == op && SpellsAt(toks, lo + Width(left) + 1, right)
    case Logical(left, op, right) =>
      SpellsAt(toks, lo, left) && toks[lo + Width(left)] == op && SpellsAt(toks, lo + Width(left) + 1, right)
    case Get(obj, name) =>
      SpellsAt(toks, lo, obj) && toks[lo + Width(obj)].kind == DOT
      && toks[lo + Width(obj) + 1] == name && name.kind == IDENTIFIER
    case Call(callee, paren, args) =>
      SpellsAt(toks, lo, callee) && toks[lo + Width(callee)].kind == LEFT_PAREN
      && ArgsSpellAt(toks, lo + Width(callee) + 1, args)
      && toks[lo + Width(callee) + 1 + ArgsWidth(args)] == paren && paren.kind == RIGHT_PAREN
    case Assign(id, name, value) =>
      id == lo && toks[lo] == name && name.kind == IDENTIFIER && toks[lo + 1].kind == EQUAL
      && SpellsAt(toks, lo + 2, value)
    case Sett(obj, name, value) =>
      SpellsAt(toks, lo, obj) && toks[lo + Width(obj)].kind == DOT
      && toks[lo + Width(obj) + 1] == name && name.kind == IDENTIFIER
      && toks[lo + Width(obj) + 2].kind == EQUAL && SpellsAt(toks, lo + Width(obj) + 3, value)
    case Super(_, _) => false
  }

  /** The tokens from `lo` on are the arguments, separated by commas. */
  predicate ArgsSpellAt(toks: seq<Token>, lo: nat, args: seq<Expr>)
    decreases args, 0
  {
    args != [] ==>
      && SpellsAt(toks, lo, args[0])
      && (|args| > 1 ==>
            && lo + Width(args[0]) < |toks| && toks[lo + Width(args[0])].kind == COMMA
            && ArgsSpellAt(toks, lo + Width(args[0]) + 1, args[1..]))
  }

  /** The tokens from `lo` up to `hi` are exactly the source text of `e`. */
  predicate Yields(toks: seq<Token>, lo: nat, hi: nat, e: Expr) {
    lo + Width(e) == hi && SpellsAt(toks, lo, e)
  }

  /** What a successful parse at level `lv` promises: a grammatical tree
      whose root fits the level, after consuming at least one token. */
  predicate ParsedAt(toks: seq<Token>, c: Cursor, r: Parsed<Expr>, lv: Prec) {
    Moves(toks, c, r.st) && Reported(c, r)
    && (r.Parsed? ==> c.pos < r.st.pos && Fits(lv, r.value) && Grammatical(toks, r.value))
  }

  // ---------------------------------------------------------------------
  // Expressions.

  /** `expression`. */
  function Expression(toks: seq<Token>, c: Cursor): (r: Parsed<Expr>)
    requires Valid(toks) && c.pos < |toks|
    ensures ParsedAt(toks, c, r, AssignmentLevel)
    decreases |toks| - c.pos, 21
  {
    Assignment(toks, c)
  }

  /** `assignment`: right-associative. A Variable target becomes Assign
      (keeping the variable's id), a Get target becomes Sett; any other
      target is reported as InvalidAssignmentTarget without throwing,
      and the left expression is the result. */
  function Assignment(toks: seq<Token>, c: Cursor): (r: Parsed<Expr>)
    requires Valid(toks) && c.pos < |toks|
    ensures ParsedAt(toks, c, r, AssignmentLevel)
    decreases |toks| - c.pos, 20
  {
    match Infix(toks, c, OrLevel)
    case Failed(c1) => Failed(c1)
    case Parsed(target, c1) =>
      if Check(toks, c1.pos, EQUAL) then
        var equals := toks[c1.pos];
        match Assignment(toks, Advanced(c1))
        case Failed(c2) => Failed(c2)
        case Parsed(value, c2) =>
          AssignTarget(target, equals, value, c2)
      else Parsed(target, c1)
  }

  /** The target rule of `assignment`, applied once both sides are parsed. */
  function AssignTarget(target: Expr, equals: Token, value: Expr, c: Cursor): (r: Parsed<Expr>)
    ensures r.Parsed?
    ensures target.Variable? ==> r.value == Assign(target.id, target.name, value) && r.st == c
    ensures target.Get? ==> r.value == Sett(target.obj, target.name, value) && r.st == c
    ensures !target.Variable? && !target.Get? ==>
      r.value == target && r.st == Report(c, equals, InvalidAssignmentTarget)
  {
    if target.Variable? then Parsed(Assign(target.id, target.name, value), c)
    else if target.Get? then Parsed(Sett(target.obj, target.name, value), c)
    else Parsed(target, Report(c, equals, InvalidAssignmentTarget))
  }

  /** `or`, `and`, `equality`, `comparison`, `term` and `factor`: an operand
      of the next tighter level followed by a left-associative loop. */
  function Infix(toks: seq<Token>, c: Cursor, lv: Prec): (r: Parsed<Expr>)
    requires Valid(toks) && c.pos < |toks| && IsInfix(lv)
    ensures ParsedAt(toks, c, r, lv)
    decreases |toks| - c.pos, 2 * Rank(lv) + 1
  {
    match Operand(toks, c, lv)
    case Failed(c1) => Failed(c1)
    case Parsed(left, c1) => InfixRest(toks, left, c1, lv)
  }

  /** The operand of an infix level. */
  function Operand(toks: seq<Token>, c: Cursor, lv: Prec): (r: Parsed<Expr>)
    requires Valid(toks) && c.pos < |toks| && IsInfix(lv)
    ensures ParsedAt(toks, c, r, Tighter(lv))
    decreases |toks| - c.pos, 2 * Rank(lv)
  {
    if lv == FactorLevel then UnaryExpr(toks, c) else Infix(toks, c, Tighter(lv))
  }

  /** The node one iteration of the operator loop builds. */
  function InfixNode(lv: Prec, left: Expr, op: Token, right: Expr): Expr {
    if lv in {OrLevel, AndLevel} then Logical(left, op, right) else Binary(left, op, right)
  }

  /** The node of an operator of `lv` sits at level `lv`. */
  lemma NodeTier(lv: Prec, left: Expr, op: Token, right: Expr)
    requires IsInfix(lv) && op.kind in Operators(lv)
    ensures Tier(InfixNode(lv, left, op, right)) == lv
  {
  }

  /** An operator of `lv` between an operand of its own level and one of the
      next tighter level makes a grammatical node of level `lv`. */
  lemma NodeGrammatical(toks: seq<Token>, lv: Prec, left: Expr, op: Token, right: Expr)
    requires IsInfix(lv) && op.kind in Operators(lv)
    requires Fits(lv, left) && Grammatical(toks, left) && Fits(Tighter(lv), right) && Grammatical(toks, right)
    ensures Fits(lv, InfixNode(lv, left, op, right)) && Grammatical(toks, InfixNode(lv, left, op, right))
  {
    NodeTier(lv, left, op, right);
  }

  /** The `while (match(...))` loop of an infix level: each operator folds
      the expression so far into the left operand of a new node. */
  function InfixRest(toks: seq<Token>, left: Expr, c: Cursor, lv: Prec): (r: Parsed<Expr>)
    requires Valid(toks) && c.pos < |toks| && IsInfix(lv)
    requires Fits(lv, left) && Grammatical(toks, left)
    ensures Moves(toks, c, r.st) && Reported(c, r)
    ensures r.Parsed? ==> Fits(lv, r.value) && Grammatical(toks, r.value)
    decreases |toks| - c.pos, 2 * Rank(lv)
  {
    if CheckAny(toks, c.pos, Operators(lv)) then
      var op := toks[c.pos];
      match Operand(toks, Advanced(c), lv)
      case Failed(c1) => Failed(c1)
      case Parsed(right, c1) =>
        var node := InfixNode(lv, left, op, right);
        NodeGrammatical(toks, lv, left, op, right);
        InfixRest(toks, node, c1, lv)
    else Parsed(left, c)
  }

  /** `unary`: prefix `!` and `-` nest to the right; otherwise a call. */
  function UnaryExpr(toks: seq<Token>, c: Cursor): (r: Parsed<Expr>)
    requires Valid(toks) && c.pos < |toks|
    ensures ParsedAt(toks, c, r, UnaryLevel)
    decreases |toks| - c.pos, 4
  {
    if CheckAny(toks, c.pos, {BANG, MINUS}) then
      var op := toks[c.pos];
      match UnaryExpr(toks, Advanced(c))
      case Failed(c1) => Failed(c1)
      case Parsed(right, c1) => Parsed(Unary(op, right), c1)
    else CallExpr(toks, c)
  }

  /** `call`: a primary followed by any number of argument lists and
      property accesses, nesting to the left. */
  function CallExpr(toks: seq<Token>, c: Cursor): (r: Parsed<Expr>)
    requires Valid(toks) && c.pos < |toks|
    ensures ParsedAt(toks, c, r, CallLevel)
    decreases |toks| - c.pos, 3
  {
    match Primary(toks, c)
    case Failed(c1) => Failed(c1)
    case Parsed(e, c1) => CallRest(toks, e, c1)
  }

  /** The `while (true)` loop of `call`. */
  function CallRest(toks: seq<Token>, e: Expr, c: Cursor): (r: Parsed<Expr>)
    requires Valid(toks) && c.pos < |toks|
    requires Fits(CallLevel, e) && Grammatical(toks, e)
    ensures Moves(toks, c, r.st) && Reported(c, r)
    ensures r.Parsed? ==> Fits(CallLevel, r.value) && Grammatical(toks, r.value)
    decreases |toks| - c.pos, 2
  {
    if Check(toks, c.pos, LEFT_PAREN) then
      match FinishCall(toks, e, Advanced(c))
      case Failed(c1) => Failed(c1)
      case Parsed(call, c1) => CallRest(toks, call, c1)
    else if Check(toks, c.pos, DOT) then
      match Property(toks, e, Advanced(c))
      case Failed(c1) => Failed(c1)
      case Parsed(get, c1) => CallRest(toks, get, c1)
    else Parsed(e, c)
  }

  /** The property access of `call`, after `.`. */
  function Property(toks: seq<Token>, e: Expr, c: Cursor): (r: Parsed<Expr>)
    requires Valid(toks) && c.pos < |toks|
    requires Fits(CallLevel, e) && Grammatical(toks, e)
    ensures ParsedAt(toks, c, r, CallLevel)
    ensures r.Parsed? ==> r.value == Get(e, toks[c.pos])
  {
    match Consume(toks, c, IDENTIFIER, ExpectPropertyName)
    case Failed(c1) => Failed(c1)
    case Parsed(name, c1) => Parsed(Get(e, name), c1)
  }

  /** `finishCall`: the arguments after `(` and the closing `)`. There is no
      limit on the number of arguments (see the README). */
  function FinishCall(toks: seq<Token>, callee: Expr, c: Cursor): (r: Parsed<Expr>)
    requires Valid(toks) && c.pos < |toks|
    requires Fits(CallLevel, callee) && Grammatical(toks, callee)
    ensures Moves(toks, c, r.st) && Reported(c, r)
    ensures r.Parsed? ==> c.pos < r.st.pos && r.value.Call? && r.value.callee == callee
    ensures r.Parsed? ==> Grammatical(toks, r.value)
    decreases |toks| - c.pos, 23
  {
    if Check(toks, c.pos, RIGHT_PAREN) then
      Parsed(Call(callee, toks[c.pos], []), Advanced(c))
    else
      match Arguments(toks, [], c)
      case Failed(c1) => Failed(c1)
      case Parsed(args, c1) =>
        match Consume(toks, c1, RIGHT_PAREN, ExpectParenAfterArgs)
        case Failed(c2) => Failed(c2)
        case Parsed(paren, c2) => Parsed(Call(callee, paren, args), c2)
  }

  /** The `do { ... } while (match(COMMA))` loop of `finishCall`. */
  function Arguments(toks: seq<Token>, args: seq<Expr>, c: Cursor): (r: Parsed<seq<Expr>>)
    requires Valid(toks) && c.pos < |toks|
    requires forall a :: a in args ==> Grammatical(toks, a)
    ensures Moves(toks, c, r.st) && Reported(c, r)
    ensures r.Parsed? ==> c.pos < r.st.pos && |r.value| > |args| && r.value[..|args|] == args
    ensures r.Parsed? ==> forall a :: a in r.value ==> Grammatical(toks, a)
    decreases |toks| - c.pos, 22
  {
    match Expression(toks, c)
    case Failed(c1) => Failed(c1)
    case Parsed(arg, c1) =>
      if Check(toks, c1.pos, COMMA) then Arguments(toks, args + [arg], Advanced(c1))
      else Parsed(args + [arg], c1)
  }

  /** The value a NUMBER or STRING token's literal stands for. */
  function LiteralOf(lit: Literal): LiteralValue {
    match lit
    case NoLiteral => NilLit
    case NumberLiteral(d) => NumberLit(d)
    case StringLiteral(s) => StringLit(s)
  }

  /** The value of a literal token: `false`, `true`, `nil`, or the literal a
      NUMBER or STRING token carries. */
  function TokenLiteral(t: Token): LiteralValue {
    match t.kind
    case FALSE => BoolLit(false)
    case TRUE => BoolLit(true)
    case NUMBER => LiteralOf(t.literal)
    case STRING => LiteralOf(t.literal)
    case _ => NilLit
  }

  /** A parenthesised expression, after `(`. */
  function Grouped(toks: seq<Token>, c: Cursor): (r: Parsed<Expr>)
    requires Valid(toks) && c.pos < |toks|
    ensures ParsedAt(toks, c, r, PrimaryLevel)
    ensures r.Parsed? ==> r.value.Grouping?
    decreases |toks| - c.pos, 22
  {
    match Expression(toks, c)
    case Failed(c1) => Failed(c1)
    case Parsed(e, c1) =>
      match Consume(toks, c1, RIGHT_PAREN, ExpectParenAfterExpression)
      case Failed(c2) => Failed(c2)
      case Parsed(_, c2) => Parsed(Grouping(e), c2)
  }

  /** `primary`: literals, `this`, a variable (identified by its token's
      index), or a parenthesised expression; anything else throws "Expect
      expression." at the current token. */
  function Primary(toks: seq<Token>, c: Cursor): (r: Parsed<Expr>)
    requires Valid(toks) && c.pos < |toks|
    ensures ParsedAt(toks, c, r, PrimaryLevel)
    ensures r.Failed? && !CheckAny(toks, c.pos, {FALSE, TRUE, NIL, NUMBER, STRING, THIS, IDENTIFIER, LEFT_PAREN})
      ==> r.st == Report(c, toks[c.pos], ExpectExpression)
    decreases |toks| - c.pos, 0
  {
    if CheckAny(toks, c.pos, {FALSE, TRUE, NIL, NUMBER, STRING}) then
      Parsed(Literal(TokenLiteral(toks[c.pos])), Advanced(c))
    else if Check(toks, c.pos, THIS) then Parsed(This(c.pos, toks[c.pos]), Advanced(c))
    else if Check(toks, c.pos, IDENTIFIER) then Parsed(Variable(c.pos, toks[c.pos]), Advanced(c))
    else if Check(toks, c.pos, LEFT_PAREN) then Grouped(toks, Advanced(c))
    else Failed(Report(c, toks[c.pos], ExpectExpression))
  }

  // ---------------------------------------------------------------------
  // Statements.

  /** `s` is a statement the statement grammar derives from `toks`: its
      expressions are grammatical, its declared names and parameters are
      identifiers, and a return statement carries its `return` keyword. */
  predicate StmtGrammatical(toks: seq<Token>, s: Stmt)
    decreases s
  {
    match s
    case Block(statements) => forall t :: t in statements ==> StmtGrammatical(toks, t)
    case Class(name, methods) => name.kind == IDENTIFIER && forall m :: m in methods ==> DeclGrammatical(toks, m)
    case Expression(e) => Grammatical(toks, e)
    case Fun(decl) => DeclGrammatical(toks, decl)
    case If(condition, thenBranch, elseBranch) =>
      Grammatical(toks, condition) && StmtGrammatical(toks, thenBranch)
      && (elseBranch.Some? ==> StmtGrammatical(toks, elseBranch.value))
    case Print(e) => Grammatical(toks, e)
    case Return(keyword, value) => keyword.kind == RETURN && (value.Some? ==> Grammatical(toks, value.value))
    case Var(name, initializer) => name.kind == IDENTIFIER && (initializer.Some? ==> Grammatical(toks, initializer.value))
    case While(condition, body) => Grammatical(toks, condition) && StmtGrammatical(toks, body)
  }

  /** A function declaration the grammar derives: identifier name and
      parameters, grammatical body. */
  predicate DeclGrammatical(toks: seq<Token>, d: FunDecl)
    decreases d
  {
    && d.name.kind == IDENTIFIER
    && (forall p :: p in d.params ==> p.kind == IDENTIFIER)
    && (forall t :: t in d.body ==> StmtGrammatical(toks, t))
  }

  /** What a statement-level parsing function promises: it moves forward,
      reports before it throws, and a success consumed at least one token and
      built a grammatical statement. */
  predicate StmtParsed(toks: seq<Token>, c: Cursor, r: Parsed<Stmt>) {
    Moves(toks, c, r.st) && Reported(c, r)
    && (r.Parsed? ==> c.pos < r.st.pos && StmtGrammatical(toks, r.value))
  }

  /** `parse`: declarations up to EOF; a declaration dropped by error
      recovery leaves no statement behind. */
  function Parse(toks: seq<Token>): (r: Parsed<seq<Stmt>>)
    requires Valid(toks)
    ensures r.Parsed? && r.st.pos < |toks| && AtEnd(toks, r.st.pos)
    ensures forall s :: s in r.value ==> StmtGrammatical(toks, s)
  {
    ParseFrom(toks, [], Cursor(0, []))
  }

  /** The loop of `parse`. */
  function ParseFrom(toks: seq<Token>, statements: seq<Stmt>, c: Cursor): (r: Parsed<seq<Stmt>>)
    requires Valid(toks) && c.pos < |toks|
    requires forall s :: s in statements ==> StmtGrammatical(toks, s)
    ensures r.Parsed? && Moves(toks, c, r.st) && AtEnd(toks, r.st.pos)
    ensures statements <= r.value
    ensures forall s :: s in r.value ==> StmtGrammatical(toks, s)
    decreases |toks| - c.pos
  {
    if AtEnd(toks, c.pos) then Parsed(statements, c)
    else
      match Declaration(toks, c)
      case Parsed(Some(s), c1) => ParseFrom(toks, statements + [s], c1)
      case Parsed(None, c1) => ParseFrom(toks, statements, c1)
  }

  /** `declaration`: never throws. A class, function or variable
      declaration, or a statement; on a parse error it synchronizes and
      yields no statement. */
  function Declaration(toks: seq<Token>, c: Cursor): (r: Parsed<Option<Stmt>>)
    requires Valid(toks) && c.pos < |toks|
    ensures r.Parsed? && Moves(toks, c, r.st)
    ensures !AtEnd(toks, c.pos) ==> c.pos < r.st.pos
    ensures r.value.Some? ==> StmtGrammatical(toks, r.value.value)
    ensures r.value.None? ==> |c.diags| < |r.st.diags|
    decreases |toks| - c.pos, 32
  {
    match DeclarationBody(toks, c)
    case Parsed(s, c1) => Parsed(Some(s), c1)
    case Failed(c1) => Parsed(None, Synchronize(toks, c1))
  }

  /** The `try` block of `declaration`. */
  function DeclarationBody(toks: seq<Token>, c: Cursor): (r: Parsed<Stmt>)
    requires Valid(toks) && c.pos < |toks|
    ensures StmtParsed(toks, c, r)
    ensures r.Parsed? && Check(toks, c.pos, CLASS) ==> r.value.Class? && r.value.name == toks[Advanced(c).pos]
    ensures r.Parsed? && Check(toks, c.pos, FUN) ==> r.value.Fun? && r.value.decl.name == toks[Advanced(c).pos]
    ensures r.Parsed? && Check(toks, c.pos, VAR) ==> r.value.Var? && r.value.name == toks[Advanced(c).pos]
    decreases |toks| - c.pos, 31
  {
    if Check(toks, c.pos, CLASS) then ClassDeclaration(toks, Advanced(c))
    else if Check(toks, c.pos, FUN) then FunStatement(toks, Advanced(c))
    else if Check(toks, c.pos, VAR) then VarDeclaration(toks, Advanced(c))
    else Statement(toks, c)
  }

  /** The kinds at which a statement may start after a discarded one. */
  const StatementStarts: set<TokenType> := {CLASS, FUN, VAR, FOR, IF, WHILE, PRINT, RETURN}

  /** A statement boundary for `synchronize`: just past a semicolon, or at a
      token that starts a declaration or statement. */
  predicate Boundary(toks: seq<Token>, pos: nat)
    requires 0 < pos < |toks|
  {
    toks[pos - 1].kind == SEMICOLON || toks[pos].kind in StatementStarts
  }

  /** `synchronize`: discards the current token, then every token up to the
      first boundary or EOF. Diagnostics are unchanged. */
  function Synchronize(toks: seq<Token>, c: Cursor): (after: Cursor)
    requires Valid(toks) && c.pos < |toks|
    ensures after.diags == c.diags && c.pos <= after.pos < |toks|
    ensures !AtEnd(toks, c.pos) ==> c.pos < after.pos
    ensures AtEnd(toks, after.pos) || (c.pos < after.pos && Boundary(toks, after.pos))
    ensures forall k :: c.pos < k < after.pos ==> !AtEnd(toks, k) && !Boundary(toks, k)
  {
    c.(pos := SkipToBoundary(toks, Advance(toks, c.pos)))
  }

  /** The loop of `synchronize`. */
  function SkipToBoundary(toks: seq<Token>, pos: nat): (end: nat)
    requires Valid(toks) && pos < |toks|
    requires AtEnd(toks, pos) || 0 < pos
    ensures pos <= end < |toks|
    ensures AtEnd(toks, end) || (0 < end && Boundary(toks, end))
    ensures forall k :: pos <= k < end ==> !AtEnd(toks, k) && !Boundary(toks, k)
    decreases |toks| - pos
  {
    if AtEnd(toks, pos) || Boundary(toks, pos) then pos
    else SkipToBoundary(toks, pos + 1)
  }

  /** `classDeclaration`, after `class`: a name, then methods (each parsed
      as a function of kind "method") up to the closing brace. */
  function ClassDeclaration(toks: seq<Token>, c: Cursor): (r: Parsed<Stmt>)
    requires Valid(toks) && c.pos < |toks|
    ensures StmtParsed(toks, c, r)
    ensures r.Parsed? ==> r.value.Class? && r.value.name == toks[c.pos]
    ensures !Check(toks, c.pos, IDENTIFIER) ==> r == Failed(Report(c, toks[c.pos], ExpectClassName))
    decreases |toks| - c.pos, 29
  {
    match Consume(toks, c, IDENTIFIER, ExpectClassName)
    case Failed(c1) => Failed(c1)
    case Parsed(name, c1) =>
      match Consume(toks, c1, LEFT_BRACE, ExpectBraceBeforeClassBody)
      case Failed(c2) => Failed(c2)
      case Parsed(_, c2) => ClassBody(toks, name, c2)
  }

  /** The methods and closing brace of `classDeclaration`. */
  function ClassBody(toks: seq<Token>, name: Token, c: Cursor): (r: Parsed<Stmt>)
    requires Valid(toks) && c.pos < |toks| && name.kind == IDENTIFIER
    ensures StmtParsed(toks, c, r)
    ensures r.Parsed? ==> r.value.Class? && r.value.name == name
    decreases |toks| - c.pos, 30
  {
    match Methods(toks, [], c)
    case Failed(c1) => Failed(c1)
    case Parsed(methods, c1) =>
      match Consume(toks, c1, RIGHT_BRACE, ExpectBraceAfterClassBody)
      case Failed(c2) => Failed(c2)
      case Parsed(_, c2) => Parsed(Class(name, methods), c2)
  }

  /** The method loop of `classDeclaration`. */
  function Methods(toks: seq<Token>, methods: seq<FunDecl>, c: Cursor): (r: Parsed<seq<FunDecl>>)
    requires Valid(toks) && c.pos < |toks|
    requires forall m :: m in methods ==> DeclGrammatical(toks, m)
    ensures Moves(toks, c, r.st) && Reported(c, r)
    ensures r.Parsed? ==> methods <= r.value && (forall m :: m in r.value ==> DeclGrammatical(toks, m))
    ensures r.Parsed? ==> Check(toks, r.st.pos, RIGHT_BRACE) || AtEnd(toks, r.st.pos)
    decreases |toks| - c.pos, 29
  {
    if Check(toks, c.pos, RIGHT_BRACE) || AtEnd(toks, c.pos) then Parsed(methods, c)
    else
      match Function(toks, c, "method")
      case Failed(c1) => Failed(c1)
      case Parsed(m, c1) => Methods(toks, methods + [m], c1)
  }

  /** `fun('function')` wrapped as a statement. */
  function FunStatement(toks: seq<Token>, c: Cursor): (r: Parsed<Stmt>)
    requires Valid(toks) && c.pos < |toks|
    ensures StmtParsed(toks, c, r)
    ensures r.Parsed? ==> r.value.Fun? && r.value.decl.name == toks[c.pos]
    ensures !Check(toks, c.pos, IDENTIFIER) ==> r == Failed(Report(c, toks[c.pos], ExpectFunctionName))
    decreases |toks| - c.pos, 29
  {
    assert "Expect " + "function" + " name." == ExpectFunctionName;
    match Function(toks, c, "function")
    case Failed(c1) => Failed(c1)
    case Parsed(decl, c1) => Parsed(Fun(decl), c1)
  }

  /** `fun(kind)`: a name, a parenthesised parameter list and a braced body.
      The messages name the kind of function. */
  function Function(toks: seq<Token>, c: Cursor, kind: string): (r: Parsed<FunDecl>)
    requires Valid(toks) && c.pos < |toks|
    ensures Moves(toks, c, r.st) && Reported(c, r)
    ensures r.Parsed? ==> c.pos < r.st.pos && DeclGrammatical(toks, r.value) && r.value.name == toks[c.pos]
    ensures !Check(toks, c.pos, IDENTIFIER) ==> r == Failed(Report(c, toks[c.pos], "Expect " + kind + " name."))
    decreases |toks| - c.pos, 28
  {
    match Consume(toks, c, IDENTIFIER, "Expect " + kind + " name.")
    case Failed(c1) => Failed(c1)
    case Parsed(name, c1) =>
      match Consume(toks, c1, LEFT_PAREN, "Expect '(' after " + kind + " name.")
      case Failed(c2) => Failed(c2)
      case Parsed(_, c2) => FunctionRest(toks, name, c2, kind)
  }

  /** The rest of `fun(kind)` after the opening parenthesis. */
  function FunctionRest(toks: seq<Token>, name: Token, c: Cursor, kind: string): (r: Parsed<FunDecl>)
    requires Valid(toks) && c.pos < |toks| && name.kind == IDENTIFIER
    ensures Moves(toks, c, r.st) && Reported(c, r)
    ensures r.Parsed? ==> c.pos < r.st.pos && DeclGrammatical(toks, r.value) && r.value.name == name
    decreases |toks| - c.pos, 28
  {
    var params :=
      if Check(toks, c.pos, RIGHT_PAREN) then Parsed([], c) else Parameters(toks, [], c);
    match params
    case Failed(c1) => Failed(c1)
    case Parsed(ps, c1) =>
      match Consume(toks, c1, RIGHT_PAREN, ExpectParenAfterParameters)
      case Failed(c2) => Failed(c2)
      case Parsed(_, c2) => FunctionBody(toks, name, ps, c2, kind)
  }

  /** The braced body of `fun(kind)`. */
  function FunctionBody(toks: seq<Token>, name: Token, params: seq<Token>, c: Cursor, kind: string): (r: Parsed<FunDecl>)
    requires Valid(toks) && c.pos < |toks| && name.kind == IDENTIFIER
    requires forall p :: p in params ==> p.kind == IDENTIFIER
    ensures Moves(toks, c, r.st) && Reported(c, r)
    ensures r.Parsed? ==> c.pos < r.st.pos && DeclGrammatical(toks, r.value) && r.value == FunDecl(name, params, r.value.body)
    decreases |toks| - c.pos, 28
  {
    match Consume(toks, c, LEFT_BRACE, "Expect '{' before " + kind + " body.")
    case Failed(c1) => Failed(c1)
    case Parsed(_, c1) =>
      match BlockBody(toks, [], c1)
      case Failed(c2) => Failed(c2)
      case Parsed(body, c2) => Parsed(FunDecl(name, params, body), c2)
  }

  /** The parameter limit of a function declaration. */
  const MaxParameters: nat := 255

  /** The parameter-count check of `fun`: once 255 parameters have been
      read, the next one is reported at the current token, but parsing goes
      on. */
  function CheckParameterCount(params: seq<Token>, c: Cursor, at: Token): (after: Cursor)
    ensures |params| < MaxParameters ==> after == c
    ensures |params| >= MaxParameters ==>
      after == c.(diags := c.diags + [TokenError(at, TooManyParameters)])
  {
    if |params| >= MaxParameters then Report(c, at, TooManyParameters) else c
  }

  /** The `do { ... } while (match(COMMA))` loop of `fun`. */
  function Parameters(toks: seq<Token>, params: seq<Token>, c: Cursor): (r: Parsed<seq<Token>>)
    requires Valid(toks) && c.pos < |toks|
    requires forall p :: p in params ==> p.kind == IDENTIFIER
    ensures Moves(toks, c, r.st) && Reported(c, r)
    ensures r.Parsed? ==> c.pos < r.st.pos && params < r.value && (forall p :: p in r.value ==> p.kind == IDENTIFIER)
    ensures |params| >= MaxParameters ==> |c.diags| < |r.st.diags|
    decreases |toks| - c.pos
  {
    match Consume(toks, CheckParameterCount(params, c, toks[c.pos]), IDENTIFIER, ExpectParameterName)
    case Failed(c1) => Failed(c1)
    case Parsed(p, c1) =>
      if Check(toks, c1.pos, COMMA) then Parameters(toks, params + [p], Advanced(c1))
      else Parsed(params + [p], c1)
  }

  /** `statement`. */
  function Statement(toks: seq<Token>, c: Cursor): (r: Parsed<Stmt>)
    requires Valid(toks) && c.pos < |toks|
    ensures StmtParsed(toks, c, r)
    ensures r.Parsed? && Check(toks, c.pos, FOR) ==> DesugaredFor(r.value)
    ensures r.Parsed? && Check(toks, c.pos, IF) ==> r.value.If?
    ensures r.Parsed? && Check(toks, c.pos, PRINT) ==> r.value.Print?
    ensures r.Parsed? && Check(toks, c.pos, RETURN) ==> r.value.Return? && r.value.keyword == toks[c.pos]
    ensures r.Parsed? && Check(toks, c.pos, WHILE) ==> r.value.While?
    ensures r.Parsed? && Check(toks, c.pos, LEFT_BRACE) ==> r.value.Block?
    ensures r.Parsed? && !CheckAny(toks, c.pos, {FOR, IF, PRINT, RETURN, WHILE, LEFT_BRACE}) ==> r.value.Expression?
    decreases |toks| - c.pos, 30
  {
    if Check(toks, c.pos, FOR) then ForStatement(toks, Advanced(c))
    else if Check(toks, c.pos, IF) then IfStatement(toks, Advanced(c))
    else if Check(toks, c.pos, PRINT) then PrintStatement(toks, Advanced(c))
    else if Check(toks, c.pos, RETURN) then ReturnStatement(toks, toks[c.pos], Advanced(c))
    else if Check(toks, c.pos, WHILE) then WhileStatement(toks, Advanced(c))
    else if Check(toks, c.pos, LEFT_BRACE) then BlockStatement(toks, Advanced(c))
    else ExpressionStatement(toks, c)
  }

  /** `new Block(this.block())`, after `{`. */
  function BlockStatement(toks: seq<Token>, c: Cursor): (r: Parsed<Stmt>)
    requires Valid(toks) && c.pos < |toks|
    ensures StmtParsed(toks, c, r)
    ensures r.Parsed? ==> r.value.Block?
    decreases |toks| - c.pos, 34
  {
    match BlockBody(toks, [], c)
    case Failed(c1) => Failed(c1)
    case Parsed(statements, c1) => Parsed(Block(statements), c1)
  }

  /** The loop a desugared `for` runs: a missing condition is `true`, and
      the increment runs after the body inside the loop. */
  predicate ForLoop(loop: Stmt, condition: Option<Expr>, increment: Option<Expr>, body: Stmt) {
    && loop.While?
    && loop.condition == condition.GetOr(Literal(BoolLit(true)))
    && loop.body == (if increment.Some? then Block([body, Stmt.Expression(increment.value)]) else body)
  }

  /** The desugaring of `for (init; cond; inc) body`: the initializer runs
      once, in a block enclosing the loop, and is omitted with its block when
      absent. */
  function DesugarFor(initializer: Option<Stmt>, condition: Option<Expr>, increment: Option<Expr>, body: Stmt): (s: Stmt)
    ensures initializer.None? ==> ForLoop(s, condition, increment, body)
    ensures initializer.Some? ==>
      && s.Block? && |s.statements| == 2 && s.statements[0] == initializer.value
      && ForLoop(s.statements[1], condition, increment, body)
  {
    var inner := if increment.Some? then Block([body, Stmt.Expression(increment.value)]) else body;
    var loop := While(condition.GetOr(Literal(BoolLit(true))), inner);
    if initializer.Some? then Block([initializer.value, loop]) else loop
  }

  /** `s` is what some `for` statement desugars to. */
  ghost predicate DesugaredFor(s: Stmt) {
    exists initializer, condition, increment, body :: s == DesugarFor(initializer, condition, increment, body)
  }

  /** Desugaring a `for` built from grammatical parts yields a grammatical
      statement. */
  lemma DesugarForGrammatical(toks: seq<Token>, initializer: Option<Stmt>, condition: Option<Expr>, increment: Option<Expr>, body: Stmt)
    requires initializer.Some? ==> StmtGrammatical(toks, initializer.value)
    requires condition.Some? ==> Grammatical(toks, condition.value)
    requires increment.Some? ==> Grammatical(toks, increment.value)
    requires StmtGrammatical(toks, body)
    ensures StmtGrammatical(toks, DesugarFor(initializer, condition, increment, body))
  {
    var inner := if increment.Some? then Block([body, Stmt.Expression(increment.value)]) else body;
    if increment.Some? {
      assert forall t :: t in inner.statements ==> t == body || t == Stmt.Expression(increment.value);
    }
    var loop := While(condition.GetOr(Literal(BoolLit(true))), inner);
    assert StmtGrammatical(toks, loop);
    if initializer.Some? {
      assert forall t :: t in [initializer.value, loop] ==> t == initializer.value || t == loop;
    }
  }

  /** `forStatement`, after `for`. */
  function ForStatement(toks: seq<Token>, c: Cursor): (r: Parsed<Stmt>)
    requires Valid(toks) && c.pos < |toks|
    ensures StmtParsed(toks, c, r)
    ensures r.Parsed? ==> Check(toks, c.pos, LEFT_PAREN)
    ensures r.Parsed? ==> DesugaredFor(r.value)
    ensures !Check(toks, c.pos, LEFT_PAREN) ==> r == Failed(Report(c, toks[c.pos], ExpectParenAfterFor))
    decreases |toks| - c.pos, 29
  {
    match Consume(toks, c, LEFT_PAREN, ExpectParenAfterFor)
    case Failed(c1) => Failed(c1)
    case Parsed(_, c1) =>
      match ForInitializer(toks, c1)
      case Failed(c2) => Failed(c2)
      case Parsed(initializer, c2) => ForClauses(toks, initializer, c2)
  }

  /** The condition clause of `forStatement`. */
  function ForClauses(toks: seq<Token>, initializer: Option<Stmt>, c: Cursor): (r: Parsed<Stmt>)
    requires Valid(toks) && c.pos < |toks|
    requires initializer.Some? ==> StmtGrammatical(toks, initializer.value)
    ensures StmtParsed(toks, c, r)
    ensures r.Parsed? ==> DesugaredFor(r.value)
    decreases |toks| - c.pos, 29
  {
    match OptionalExpression(toks, c, SEMICOLON)
    case Failed(c1) => Failed(c1)
    case Parsed(condition, c1) =>
      match Consume(toks, c1, SEMICOLON, ExpectSemicolonAfterCondition)
      case Failed(c2) => Failed(c2)
      case Parsed(_, c2) => ForIncrement(toks, initializer, condition, c2)
  }

  /** The increment clause and the body of `forStatement`. */
  function ForIncrement(toks: seq<Token>, initializer: Option<Stmt>, condition: Option<Expr>, c: Cursor): (r: Parsed<Stmt>)
    requires Valid(toks) && c.pos < |toks|
    requires initializer.Some? ==> StmtGrammatical(toks, initializer.value)
    requires condition.Some? ==> Grammatical(toks, condition.value)
    ensures StmtParsed(toks, c, r)
    ensures r.Parsed? ==> DesugaredFor(r.value)
    decreases |toks| - c.pos, 29
  {
    match OptionalExpression(toks, c, RIGHT_PAREN)
    case Failed(c1) => Failed(c1)
    case Parsed(increment, c1) =>
      match Consume(toks, c1, RIGHT_PAREN, ExpectParenAfterForClauses)
      case Failed(c2) => Failed(c2)
      case Parsed(_, c2) =>
        match Statement(toks, c2)
        case Failed(c3) => Failed(c3)
        case Parsed(body, c3) =>
          DesugarForGrammatical(toks, initializer, condition, increment, body);
          Parsed(DesugarFor(initializer, condition, increment, body), c3)
  }

  /** The initializer clause of `for`: `;` for none, a variable declaration
      or an expression statement. */
  function ForInitializer(toks: seq<Token>, c: Cursor): (r: Parsed<Option<Stmt>>)
    requires Valid(toks) && c.pos < |toks|
    ensures Moves(toks, c, r.st) && Reported(c, r)
    ensures r.Parsed? ==> c.pos < r.st.pos && (r.value.Some? ==> StmtGrammatical(toks, r.value.value))
    ensures r.Parsed? ==> (r.value.None? <==> Check(toks, c.pos, SEMICOLON))
    ensures r.Parsed? && r.value.Some? ==> (r.value.value.Var? <==> Check(toks, c.pos, VAR))
    decreases |toks| - c.pos, 27
  {
    if Check(toks, c.pos, SEMICOLON) then Parsed(None, Advanced(c))
    else
      var clause := if Check(toks, c.pos, VAR) then VarDeclaration(toks, Advanced(c)) else ExpressionStatement(toks, c);
      match clause
      case Failed(c1) => Failed(c1)
      case Parsed(s, c1) => Parsed(Some(s), c1)
  }

  /** An expression unless the current token is `terminator` (which is left
      for the caller to consume). */
  function OptionalExpression(toks: seq<Token>, c: Cursor, terminator: TokenType): (r: Parsed<Option<Expr>>)
    requires Valid(toks) && c.pos < |toks|
    ensures Moves(toks, c, r.st) && Reported(c, r)
    ensures r.Parsed? && r.value.Some? ==> Grammatical(toks, r.value.value)
    ensures Check(toks, c.pos, terminator) ==> r == Parsed(None, c)
    ensures r.Parsed? && !Check(toks, c.pos, terminator) ==> r.value.Some?
    decreases |toks| - c.pos, 22
  {
    if Check(toks, c.pos, terminator) then Parsed(None, c)
    else
      match Expression(toks, c)
      case Failed(c1) => Failed(c1)
      case Parsed(e, c1) => Parsed(Some(e), c1)
  }

  /** `ifStatement`, after `if`. */
  function IfStatement(toks: seq<Token>, c: Cursor): (r: Parsed<Stmt>)
    requires Valid(toks) && c.pos < |toks|
    ensures StmtParsed(toks, c, r)
    ensures r.Parsed? ==> r.value.If? && Check(toks, c.pos, LEFT_PAREN)
    ensures !Check(toks, c.pos, LEFT_PAREN) ==> r == Failed(Report(c, toks[c.pos], ExpectParenAfterIf))
    decreases |toks| - c.pos, 29
  {
    match Consume(toks, c, LEFT_PAREN, ExpectParenAfterIf)
    case Failed(c1) => Failed(c1)
    case Parsed(_, c1) =>
      match Expression(toks, c1)
      case Failed(c2) => Failed(c2)
      case Parsed(condition, c2) =>
        match Consume(toks, c2, RIGHT_PAREN, ExpectParenAfterIfCondition)
        case Failed(c3) => Failed(c3)
        case Parsed(_, c3) => IfBranches(toks, condition, c3)
  }

  /** The branches of `ifStatement`: an `else` binds to the nearest `if`. */
  function IfBranches(toks: seq<Token>, condition: Expr, c: Cursor): (r: Parsed<Stmt>)
    requires Valid(toks) && c.pos < |toks| && Grammatical(toks, condition)
    ensures StmtParsed(toks, c, r)
    ensures r.Parsed? ==> r.value.If? && r.value.condition == condition
    ensures r.Parsed? ==> var t := Statement(toks, c);
      && t.Parsed? && r.value.thenBranch == t.value
      && (r.value.elseBranch.Some? <==> Check(toks, t.st.pos, ELSE))
    decreases |toks| - c.pos, 31
  {
    match Statement(toks, c)
    case Failed(c1) => Failed(c1)
    case Parsed(thenBranch, c1) =>
      if Check(toks, c1.pos, ELSE) then
        match Statement(toks, Advanced(c1))
        case Failed(c2) => Failed(c2)
        case Parsed(elseBranch, c2) => Parsed(If(condition, thenBranch, Some(elseBranch)), c2)
      else Parsed(If(condition, thenBranch, None), c1)
  }

  /** `printStatement`, after `print`. */
  function PrintStatement(toks: seq<Token>, c: Cursor): (r: Parsed<Stmt>)
    requires Valid(toks) && c.pos < |toks|
    ensures StmtParsed(toks, c, r)
    ensures r.Parsed? ==> r.value.Print?
    decreases |toks| - c.pos, 26
  {
    match Expression(toks, c)
    case Failed(c1) => Failed(c1)
    case Parsed(value, c1) =>
      match Consume(toks, c1, SEMICOLON, ExpectSemicolonAfterValue)
      case Failed(c2) => Failed(c2)
      case Parsed(_, c2) => Parsed(Print(value), c2)
  }

  /** `returnStatement`, after `return`: the value is optional. */
  function ReturnStatement(toks: seq<Token>, keyword: Token, c: Cursor): (r: Parsed<Stmt>)
    requires Valid(toks) && c.pos < |toks| && keyword.kind == RETURN
    ensures StmtParsed(toks, c, r)
    ensures r.Parsed? ==> r.value.Return? && r.value.keyword == keyword
    ensures r.Parsed? ==> (r.value.value.None? <==> Check(toks, c.pos, SEMICOLON))
    decreases |toks| - c.pos, 26
  {
    match OptionalExpression(toks, c, SEMICOLON)
    case Failed(c1) => Failed(c1)
    case Parsed(value, c1) =>
      match Consume(toks, c1, SEMICOLON, ExpectSemicolonAfterReturnValue)
      case Failed(c2) => Failed(c2)
      case Parsed(_, c2) => Parsed(Return(keyword, value), c2)
  }

  /** `varDeclaration`, after `var`: the initializer is optional. */
  function VarDeclaration(toks: seq<Token>, c: Cursor): (r: Parsed<Stmt>)
    requires Valid(toks) && c.pos < |toks|
    ensures StmtParsed(toks, c, r)
    ensures r.Parsed? ==>
      && Check(toks, c.pos, IDENTIFIER) && r.value.Var? && r.value.name == toks[c.pos]
      && (r.value.initializer.Some? <==> Check(toks, Advanced(c).pos, EQUAL))
    ensures !Check(toks, c.pos, IDENTIFIER) ==> r == Failed(Report(c, toks[c.pos], ExpectVariableName))
    decreases |toks| - c.pos, 26
  {
    match Consume(toks, c, IDENTIFIER, ExpectVariableName)
    case Failed(c1) => Failed(c1)
    case Parsed(name, c1) =>
      match VarInitializer(toks, c1)
      case Failed(c2) => Failed(c2)
      case Parsed(init, c2) =>
        match Consume(toks, c2, SEMICOLON, ExpectSemicolonAfterVar)
        case Failed(c3) => Failed(c3)
        case Parsed(_, c3) => Parsed(Var(name, init), c3)
  }

  /** The optional `= initializer` of `varDeclaration`. */
  function VarInitializer(toks: seq<Token>, c: Cursor): (r: Parsed<Option<Expr>>)
    requires Valid(toks) && c.pos < |toks|
    ensures Moves(toks, c, r.st) && Reported(c, r)
    ensures r.Parsed? ==> (r.value.Some? <==> Check(toks, c.pos, EQUAL))
    ensures r.Parsed? && r.value.Some? ==> Grammatical(toks, r.value.value)
    decreases |toks| - c.pos, 25
  {
    if Check(toks, c.pos, EQUAL) then
      match Expression(toks, Advanced(c))
      case Failed(c1) => Failed(c1)
      case Parsed(e, c1) => Parsed(Some(e), c1)
    else Parsed(None, c)
  }

  /** `whileStatement`, after `while`. */
  function WhileStatement(toks: seq<Token>, c: Cursor): (r: Parsed<Stmt>)
    requires Valid(toks) && c.pos < |toks|
    ensures StmtParsed(toks, c, r)
    ensures r.Parsed? ==> r.value.While? && Check(toks, c.pos, LEFT_PAREN)
    ensures !Check(toks, c.pos, LEFT_PAREN) ==> r == Failed(Report(c, toks[c.pos], ExpectParenAfterWhile))
    decreases |toks| - c.pos, 29
  {
    match Consume(toks, c, LEFT_PAREN, ExpectParenAfterWhile)
    case Failed(c1) => Failed(c1)
    case Parsed(_, c1) =>
      match Expression(toks, c1)
      case Failed(c2) => Failed(c2)
      case Parsed(condition, c2) =>
        match Consume(toks, c2, RIGHT_PAREN, ExpectParenAfterCondition)
        case Failed(c3) => Failed(c3)
        case Parsed(_, c3) =>
          match Statement(toks, c3)
          case Failed(c4) => Failed(c4)
          case Parsed(body, c4) => Parsed(While(condition, body), c4)
  }

  /** `expressionStatement`. */
  function ExpressionStatement(toks: seq<Token>, c: Cursor): (r: Parsed<Stmt>)
    requires Valid(toks) && c.pos < |toks|
    ensures StmtParsed(toks, c, r)
    ensures r.Parsed? ==> r.value.Expression?
    decreases |toks| - c.pos, 26
  {
    match Expression(toks, c)
    case Failed(c1) => Failed(c1)
    case Parsed(e, c1) =>
      match Consume(toks, c1, SEMICOLON, ExpectSemicolonAfterExpression)
      case Failed(c2) => Failed(c2)
      case Parsed(_, c2) => Parsed(Stmt.Expression(e), c2)
  }

  /** `block`, after `{`: declarations up to the closing brace; declarations
      dropped by error recovery are left out. */
  function BlockBody(toks: seq<Token>, statements: seq<Stmt>, c: Cursor): (r: Parsed<seq<Stmt>>)
    requires Valid(toks) && c.pos < |toks|
    requires forall s :: s in statements ==> StmtGrammatical(toks, s)
    ensures Moves(toks, c, r.st) && Reported(c, r)
    ensures r.Parsed? ==> c.pos < r.st.pos && statements <= r.value
    ensures r.Parsed? ==> forall s :: s in r.value ==> StmtGrammatical(toks, s)
    ensures Check(toks, c.pos, RIGHT_BRACE) ==> r == Parsed(statements, Advanced(c))
    ensures AtEnd(toks, c.pos) ==> r == Failed(Report(c, toks[c.pos], ExpectBraceAfterBlock))
    decreases |toks| - c.pos, 33
  {
    if Check(toks, c.pos, RIGHT_BRACE) then Parsed(statements, Advanced(c))
    else if AtEnd(toks, c.pos) then Failed(Report(c, toks[c.pos], ExpectBraceAfterBlock))
    else
      match Declaration(toks, c)
      case Parsed(Some(s), c1) => BlockBody(toks, statements + [s], c1)
      case Parsed(None, c1) => BlockBody(toks, statements, c1)
  }
}
