/**
 * The expression tree the external parser produces, and the literal nodes
 * the evaluator reduces it to.
 */
module Ast {
  import opened Collection

  /** The operator tokens the evaluator dispatches on; any other token is named by `NonOperator`. */
  datatype Token =
    | And | Or | Xor | Nand
    | Eq | Neq | Gt | Gte | Lt | Lte
    | In | NotIn | Contains | NotContains
    | Ereg | Nereg
    | NonOperator(name: string)

  /**
   * An expression node. `NilExpr` stands for a nil `Expr` interface value,
   * at the root or as a child. The collection literals only arise from
   * coercing an argument; `NilNumberCollectionLit` is a number collection
   * literal whose pointer is nil.
   */
  datatype Expr =
    | NilExpr
    | BooleanLit(b: bool)
    | NumberLit(n: real)
    | StringLit(s: string)
    | SliceNumberLit(ns: seq<real>)
    | SliceStringLit(ss: seq<string>)
    | NumberCollectionLit(nc: MapNumberCollection)
    | NilNumberCollectionLit
    | StringCollectionLit(sc: MapStringCollection)
    | VarRef(key: string)
    | Paren(inner: Expr)
    | Binary(op: Token, lhs: Expr, rhs: Expr)

  /** A reduced node: a literal that evaluates to itself. */
  predicate IsValue(e: Expr) {
    || e.BooleanLit? || e.NumberLit? || e.StringLit?
    || e.SliceNumberLit? || e.SliceStringLit?
    || e.NumberCollectionLit? || e.NilNumberCollectionLit? || e.StringCollectionLit?
  }

  /** The argument keys an expression refers to. */
  function Keys(e: Expr): set<string> {
    match e
    case VarRef(key) => {key}
    case Paren(inner) => Keys(inner)
    case Binary(_, lhs, rhs) => Keys(lhs) + Keys(rhs)
    case _ => {}
  }

  /** Whether a nil number collection literal occurs in an expression. */
  predicate HoldsNilCollection(e: Expr) {
    match e
    case NilNumberCollectionLit => true
    case Paren(inner) => HoldsNilCollection(inner)
    case Binary(_, lhs, rhs) => HoldsNilCollection(lhs) || HoldsNilCollection(rhs)
    case _ => false
  }

  /** The operators that occur in an expression. */
  function Ops(e: Expr): set<Token> {
    match e
    case Paren(inner) => Ops(inner)
    case Binary(op, lhs, rhs) => {op} + Ops(lhs) + Ops(rhs)
    case _ => {}
  }

  /** The same expression with every grouping node removed. */
  function StripParens(e: Expr): (r: Expr)
    ensures !r.Paren?
    ensures Keys(r) == Keys(e) && Ops(r) == Ops(e)
    ensures HoldsNilCollection(r) == HoldsNilCollection(e)
  {
    match e
    case Paren(inner) => StripParens(inner)
    case Binary(op, lhs, rhs) => Binary(op, StripParens(lhs), StripParens(rhs))
    case _ => e
  }

  /** `e` wrapped in `n` grouping nodes. */
  function Wrap(e: Expr, n: nat): Expr {
    if n == 0 then e else Paren(Wrap(e, n - 1))
  }
}
