/**
 The syntax tree (montyc_parser/src/ast).

 Spans are dropped, and the layers expression / primary / atom of the parser
 are one type.  Child vectors are lists so that functions recur on structure.
 */
module Ast {
  import opened RawInst

  datatype Expr =
    | Lit(c: Constant)
    | NameRef(name: Name)
    | TupleLit(elems: Exprs)
    | BinOp(left: Expr, op: InfixOp, right: Expr)
    | Unary(unaryOp: UnaryOp, operand: Expr)
    | Ternary(test: Expr, body: Expr, orelse: Expr)
    | Named(target: Name, bound: Expr)
    | CallExpr(func: Expr, args: Exprs)
    | Subscript(base: Expr, index: Expr)
    | Attribute(base: Expr, attr: Name)

  datatype Exprs = NoExprs | MoreExprs(head: Expr, tail: Exprs)

  /** A parameter list, the receiver (if any) first; it never has an annotation. */
  datatype Params = NoParams | Param(name: Name, annotation: Option<Expr>, rest: Params)

  datatype Stmt =
    | ExprStmt(expr: Expr)
    | Assign(name: Name, value: Expr)
    | AssignAttr(object_: Expr, attr: Name, value: Expr)
    | Annotate(name: Name, kind: Expr)
    | ReturnStmt(returned: Option<Expr>)
    | While(test: Expr, body: Block)
    | IfChain(arms: Arms, orelse: OrElse)
    | Pass
    | FuncDef(name: Name, decorators: Exprs, params: Params, result: Option<Expr>, body: Block)

  datatype Block = Empty | Then(head: Stmt, tail: Block)

  /** The branches of a chain, `if` first and then each `elif`. */
  datatype Arms = NoArms | Arm(test: Expr, body: Block, rest: Arms)

  datatype OrElse = NoElse | Else(body: Block)

  function Append(es: Exprs, e: Expr): Exprs {
    match es
    case NoExprs => MoreExprs(e, NoExprs)
    case MoreExprs(h, t) => MoreExprs(h, Append(t, e))
  }

  function Reverse(es: Exprs): Exprs {
    match es
    case NoExprs => NoExprs
    case MoreExprs(h, t) => Append(Reverse(t), h)
  }
}
