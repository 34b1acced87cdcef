/**
 * EQ and NEQ as the source writes them, over heap nodes. EQ hands out the
 * package-level `falseExpr` node on its fallback path (evaluator.go:12,
 * 498), and NEQ negates whatever node EQ returned in place
 * (evaluator.go:507), so a NEQ on such an operand rewrites the shared
 * node. The pure `Operators.ApplyEQ` and `Operators.ApplyNEQ`, which the
 * evaluator uses, return fresh values instead.
 */
module Sentinel {
  import opened Wrappers
  import opened Host
  import opened Ast
  import opened Errors
  import opened Environment
  import opened Operators
  import opened Evaluator

  /** A heap-allocated boolean literal node. */
  class BooleanNode {
    var val: bool

    constructor (v: bool)
      ensures val == v
    {
      val := v;
    }
  }

  /** EQ takes its no-comparison path for this left operand. */
  predicate FallsBack(l: Expr) {
    !l.StringLit? && !l.NumberLit? && !l.BooleanLit?
  }

  /**
   * A comparison allocates a fresh node; the fallback and the error paths
   * return the shared node, holding whatever it currently holds.
   */
  method ApplyEQAsWritten(falseExpr: BooleanNode, l: Expr, r: Expr, epsilon: real)
    returns (res: BooleanNode, err: Option<Error>)
    ensures err.Some? <==> ApplyEQ(l, r, epsilon).Err?
    ensures err.Some? ==> err.value == ApplyEQ(l, r, epsilon).error && res == falseExpr
    ensures FallsBack(l) ==> res == falseExpr && err.None?
    ensures !FallsBack(l) && err.None? ==> fresh(res) && res.val == ApplyEQ(l, r, epsilon).value
  {
    if FallsBack(l) {
      return falseExpr, None;
    }
    match ApplyEQ(l, r, epsilon)
    case Err(e) =>
      return falseExpr, Some(e);
    case Ok(v) =>
      res := new BooleanNode(v);
      return res, None;
  }

  /** Negates the node EQ returned, in place. */
  method ApplyNEQAsWritten(falseExpr: BooleanNode, l: Expr, r: Expr, epsilon: real)
    returns (res: BooleanNode?, err: Option<Error>)
    modifies falseExpr
    ensures err.Some? <==> ApplyNEQ(l, r, epsilon).Err?
    ensures err.Some? ==> res == null && unchanged(falseExpr)
    ensures FallsBack(l) ==> res == falseExpr && falseExpr.val == !old(falseExpr.val)
    ensures !FallsBack(l) && err.None? ==>
      res != null && fresh(res) && res.val == ApplyNEQ(l, r, epsilon).value && unchanged(falseExpr)
  {
    var eqNode, eqErr := ApplyEQAsWritten(falseExpr, l, r, epsilon);
    if eqErr.Some? {
      return null, eqErr;
    }
    eqNode.val := !eqNode.val;
    return eqNode, None;
  }

  /**
   * `xs != 1` and then `xs == 1`, with xs a number slice: after the first,
   * the shared node holds true, and the second reports equality, where the
   * fallback gives false.
   */
  method NeqThenEqAsWritten(falseExpr: BooleanNode, epsilon: real) returns (neq: bool, eq: bool)
    requires !falseExpr.val
    modifies falseExpr
    ensures neq && eq
    ensures ApplyNEQ(SliceNumberLit([1.0]), NumberLit(1.0), epsilon) == Ok(true)
    ensures ApplyEQ(SliceNumberLit([1.0]), NumberLit(1.0), epsilon) == Ok(false)
  {
    var xs, one := SliceNumberLit([1.0]), NumberLit(1.0);
    var n, _ := ApplyNEQAsWritten(falseExpr, xs, one, epsilon);
    neq := n.val;
    var e, _ := ApplyEQAsWritten(falseExpr, xs, one, epsilon);
    eq := e.val;
  }

  /**
   * `(xs != 1) AND (xs != 1)` in one tree: both operands of AND are the
   * shared node, negated twice by the time AND reads it, so the source
   * yields false; the model's evaluation yields true.
   */
  method TwiceNeqAndAsWritten(falseExpr: BooleanNode, env: Env) returns (result: bool)
    requires !falseExpr.val
    modifies falseExpr
    ensures !result
    ensures var xsNeqOne := Binary(Neq, VarRef("xs"), NumberLit(1.0));
      Evaluate(Binary(And, xsNeqOne, xsNeqOne), map["xs" := Float64Slice([1.0])], env) == Ok(true)
  {
    var xs, one := SliceNumberLit([1.0]), NumberLit(1.0);
    var lv, _ := ApplyNEQAsWritten(falseExpr, xs, one, env.epsilon);
    var rv, _ := ApplyNEQAsWritten(falseExpr, xs, one, env.epsilon);
    var a, b := lv.val, rv.val;
    result := a && b;
    Coercion.CoerceTypedSlices("xs", [], [1.0], [], [], env);
  }
}
