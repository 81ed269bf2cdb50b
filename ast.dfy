/** The syntax tree the parser builds (src/AST.hpp), without code generation.
    A number keeps the digits of its token: the conversion to a floating-point
    value is not part of this model. */
module Ast {
  import opened Tokens

  datatype Expr =
    | Number(digits: string)
    | Variable(name: string)
    | Binary(op: Token, lhs: Expr, rhs: Expr)
    | Call(callee: string, args: seq<Expr>)
    | If(cond: Expr, thn: Expr, els: Expr)
    | While(cond: Expr, body: Expr)

  /** A function's name and its parameter names, in order. */
  datatype Prototype = Prototype(name: string, args: seq<string>)

  datatype Function = Function(proto: Prototype, body: Expr)

  /** The name a top-level expression is compiled under. */
  const AnonName: string := "__anon_expr"
}
