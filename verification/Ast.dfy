/** Expressions of the translated fragment. An operator node's `lval` mark is represented by
    the separate type of assignable expressions. */
module Ast {
  import opened Words

  datatype LVal =
    | LVar(name: string, mut: bool)               // a variable, with or without #mut
    | LCond(cond: Expr, a: string, b: string)     // (cond ? a : b)

  datatype Expr =
    | IntLit(i: Int32)
    | BoolLit(b: bool)
    | Var(name: string)
    | Bin(op: BinOp, l: Expr, r: Expr)
    | Assign(lhs: LVal, rhs: Expr)
    | Cond(cond: Expr, thn: Expr, els: Expr)                       // c ? x : y
    | CondScope(cond: Expr, thenBody: seq<Expr>, elseBody: seq<Expr>) // c ? {..} : {..}
    | ScopeCall(body: seq<Expr>)                                   // {..}()
    | Ret(e: Expr)                                                 // |> e

  /** No return operator anywhere. */
  predicate NoRet(e: Expr)
  {
    match e
    case IntLit(_) => true
    case BoolLit(_) => true
    case Var(_) => true
    case Bin(_, l, r) => NoRet(l) && NoRet(r)
    case Assign(lhs, r) => (lhs.LCond? ==> NoRet(lhs.cond)) && NoRet(r)
    case Cond(c, x, y) => NoRet(c) && NoRet(x) && NoRet(y)
    case CondScope(c, t, f) => NoRet(c) && NoRetAll(t) && NoRetAll(f)
    case ScopeCall(body) => NoRetAll(body)
    case Ret(_) => false
  }

  predicate NoRetAll(es: seq<Expr>)
  {
    es == [] || (NoRet(es[0]) && NoRetAll(es[1..]))
  }
}
