/** The syntax tree (src/com/sabino/lox/types/Expr.kt and Stmt.kt): two closed families of
    immutable nodes, expressions and statements. The visitor interfaces of the source
    become exhaustive `match`es in the resolver and the evaluator. */
module Ast {
  import opened Wrappers
  import opened Tokens

  /** Expressions (Expr.kt:22-92). The four node kinds the resolver can attach a scope
      distance to (`Assign`, `Super`, `This`, `Variable`) carry an `id`: the source keys
      its side table by object identity, and the parser gives each such node the index of
      its name or keyword token, which no other reference node shares. */
  datatype Expr =
    | Assign(id: nat, name: Token, value: Expr)
    | Binary(left: Expr, operator: Token, right: Expr)
    | Call(callee: Expr, paren: Token, arguments: seq<Expr>)
    | Get(obj: Expr, name: Token)
    | Grouping(expression: Expr)
    | Literal(literal: LiteralValue)
    | Logical(left: Expr, operator: Token, right: Expr)
    | Set(obj: Expr, name: Token, value: Expr)
    | Super(id: nat, keyword: Token, methodName: Token)
    | This(id: nat, keyword: Token)
    | Unary(operator: Token, right: Expr)
    | Variable(id: nat, name: Token)

  /** A `Variable` node: the only expression a class may name as its superclass. */
  type VariableExpr = e: Expr | e.Variable? witness Variable(0, Token(IDENTIFIER, "", NilLit, 0))

  /** Statements (Stmt.kt:19-71). `Class` has the `superclass` field that the parser,
      the resolver and the evaluator all use but that Stmt.kt:25 does not declare. */
  datatype Stmt =
    | Block(statements: seq<Stmt>)
    | Class(name: Token, superclass: Option<VariableExpr>, methods: seq<FunDecl>)
    | Expression(expression: Expr)
    | Function(decl: FunDecl)
    | If(condition: Expr, thenBranch: Stmt, elseBranch: Option<Stmt>)
    | Print(expression: Expr)
    | Return(keyword: Token, value: Option<Expr>)
    | Var(name: Token, initializer: Option<Expr>)
    | While(condition: Expr, body: Stmt)

  /** The payload of a `Function` statement, also used for class methods (Stmt.kt:37). */
  datatype FunDecl = FunDecl(name: Token, params: seq<Token>, body: seq<Stmt>)
}
