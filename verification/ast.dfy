/** The syntax trees the parser builds, one constructor per node class.
    Variable, Assign and This nodes carry an `id`: the index of their name
    token in the token sequence, which stands in for the node identity the
    resolver's table is keyed by. */
module Ast {
  import opened Wrappers
  import opened Tokens

  /** The value of a Literal node. */
  datatype LiteralValue = NilLit | BoolLit(b: bool) | NumberLit(number: Decimal) | StringLit(text: string)

  datatype Expr =
    | Assign(id: nat, name: Token, value: Expr)
    | Binary(left: Expr, operator: Token, right: Expr)
    | Call(callee: Expr, paren: Token, args: seq<Expr>)
    | Get(obj: Expr, name: Token)
    | Grouping(expression: Expr)
    | Literal(literal: LiteralValue)
    | Logical(left: Expr, operator: Token, right: Expr)
    | Sett(obj: Expr, name: Token, value: Expr)
    | Super(keyword: Token, methodName: Token)
    | This(id: nat, keyword: Token)
    | Unary(operator: Token, right: Expr)
    | Variable(id: nat, name: Token)

  /** A function declaration: its name, parameter tokens and body. */
  datatype FunDecl = FunDecl(name: Token, params: seq<Token>, body: seq<Stmt>)

  datatype Stmt =
    | Block(statements: seq<Stmt>)
    | Class(name: Token, methods: seq<FunDecl>)
    | Expression(expression: Expr)
    | Fun(decl: FunDecl)
    | If(condition: Expr, thenBranch: Stmt, elseBranch: Option<Stmt>)
    | Print(expression: Expr)
    | Return(keyword: Token, value: Option<Expr>)
    | Var(name: Token, initializer: Option<Expr>)
    | While(condition: Expr, body: Stmt)
}
