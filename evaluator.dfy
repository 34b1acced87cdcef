/**
 * The tree walk (evaluator.go:21-188): a post-order reduction of an
 * expression to a literal, and the entry points that demand a boolean at
 * the root.
 */
module Evaluator {
  import opened Wrappers
  import opened Host
  import opened ArgResolver
  import opened Ast
  import opened Errors
  import opened Environment
  import opened Operators
  import opened Coercion

  /**
   * Reduces a node: a group to its inner expression, a binary node to the
   * operator applied to both reduced children (left first, both always),
   * a variable to its coerced argument; a literal is its own value.
   */
  function EvaluateSubtree(e: Expr, args: MapArgResolver, env: Env): (r: Result<Expr, Error>)
    ensures r.Ok? ==> IsValue(r.value)
    ensures r.Ok? && StripParens(e).Binary? ==> r.value.BooleanLit?
    ensures IsValue(e) ==> r == Ok(e)
    decreases e
  {
    match e
    case NilExpr => Err(NilExpression)
    case Paren(inner) => EvaluateSubtree(inner, args, env)
    case Binary(op, lhs, rhs) =>
      var lv :- EvaluateSubtree(lhs, args, env);
      var rv :- EvaluateSubtree(rhs, args, env);
      var b :- ApplyOperator(op, lv, rv, env);
      Ok(BooleanLit(b))
    case VarRef(key) =>
      (match args.Resolve(key)
       case Err(_) => Err(KeyNotResolved(key))
       case Ok(raw) => Coerce(key, raw, env))
    case _ => Ok(e)
  }

  /** Evaluates a whole tree to one boolean. */
  function EvaluateWithArgResolver(e: Expr, args: MapArgResolver, env: Env): (r: Result<bool, Error>)
    ensures e.NilExpr? ==> r == Err(NilExpression)
    ensures r.Ok? <==> EvaluateSubtree(e, args, env).Ok? && EvaluateSubtree(e, args, env).value.BooleanLit?
    ensures r.Ok? ==> r.value == EvaluateSubtree(e, args, env).value.b
    ensures EvaluateSubtree(e, args, env).Ok? && !EvaluateSubtree(e, args, env).value.BooleanLit? ==> r == Err(InvalidRootResult)
    ensures EvaluateSubtree(e, args, env).Err? ==> r == Err(EvaluateSubtree(e, args, env).error)
  {
    if e.NilExpr? then Err(NilExpression)
    else
      match EvaluateSubtree(e, args, env)
      case Err(err) => Err(err)
      case Ok(BooleanLit(b)) => Ok(b)
      case Ok(_) => Err(InvalidRootResult)
  }

  /** Evaluates against a plain argument map (evaluator.go:22-24). */
  function Evaluate(e: Expr, args: map<string, Raw>, env: Env): (r: Result<bool, Error>)
    ensures r == EvaluateWithArgResolver(e, MapArgResolver(args), env)
    ensures e.NilExpr? ==> r == Err(NilExpression)
    ensures r.Ok? ==> EvaluateSubtree(e, MapArgResolver(args), env) == Ok(BooleanLit(r.value))
    ensures StripParens(e).Binary? ==> (r.Ok? <==> EvaluateSubtree(e, MapArgResolver(args), env).Ok?)
    ensures IsValue(e) && !e.BooleanLit? ==> r == Err(InvalidRootResult)
  {
    EvaluateWithArgResolver(e, NewMapArgResolver(args), env)
  }

  // Properties of the tree walk

  /** A nil root is an error whatever the arguments hold. */
  lemma NilRootIsError(args: MapArgResolver, env: Env)
    ensures EvaluateWithArgResolver(NilExpr, args, env) == Err(NilExpression)
  {
  }

  /** A variable is its coerced argument; a missing key and a nil value are errors. */
  lemma VarRefResolution(key: string, args: map<string, Raw>, env: Env)
    ensures key !in args ==> EvaluateSubtree(VarRef(key), MapArgResolver(args), env) == Err(KeyNotResolved(key))
    ensures key in args ==> EvaluateSubtree(VarRef(key), MapArgResolver(args), env) == Coerce(key, args[key], env)
    ensures key in args && args[key] == Nil ==> EvaluateSubtree(VarRef(key), MapArgResolver(args), env) == Err(UnsupportedNil)
  {
  }

  /** Any number of grouping nodes around an expression change nothing. */
  lemma {:induction false} WrapIsTransparent(e: Expr, n: nat, args: MapArgResolver, env: Env)
    ensures EvaluateSubtree(Wrap(e, n), args, env) == EvaluateSubtree(e, args, env)
    ensures EvaluateWithArgResolver(Wrap(e, n), args, env) == EvaluateWithArgResolver(e, args, env)
  {
    if n > 0 {
      WrapIsTransparent(e, n - 1, args, env);
    }
  }

  /** Removing every grouping node from a tree does not change what it evaluates to. */
  lemma {:induction false} StripParensPreservesEvaluation(e: Expr, args: MapArgResolver, env: Env)
    ensures EvaluateSubtree(StripParens(e), args, env) == EvaluateSubtree(e, args, env)
  {
    match e
    case Paren(inner) =>
      StripParensPreservesEvaluation(inner, args, env);
    case Binary(op, lhs, rhs) =>
      StripParensPreservesEvaluation(lhs, args, env);
      StripParensPreservesEvaluation(rhs, args, env);
    case _ =>
  }

  /**
   * A binary node succeeds only when both children do, and then it is the
   * operator applied to their values. An error on the left is returned
   * before the right is looked at; an error on the right is returned even
   * when the left alone would decide the result.
   */
  lemma BinaryEvaluation(op: Token, l: Expr, r: Expr, args: MapArgResolver, env: Env)
    ensures var res := EvaluateSubtree(Binary(op, l, r), args, env);
      var lv, rv := EvaluateSubtree(l, args, env), EvaluateSubtree(r, args, env);
      && (lv.Err? ==> res == Err(lv.error))
      && (lv.Ok? && rv.Err? ==> res == Err(rv.error))
      && (res.Ok? ==> lv.Ok? && rv.Ok? && ApplyOperator(op, lv.value, rv.value, env) == Ok(res.value.b))
      && (lv.Ok? && rv.Ok? ==> res == (match ApplyOperator(op, lv.value, rv.value, env)
                                       case Ok(b) => Ok(BooleanLit(b))
                                       case Err(e) => Err(e)))
  {
  }

  /** AND does not stop at a false left side, nor OR at a true one. */
  lemma NoShortCircuit(l: Expr, r: Expr, args: MapArgResolver, env: Env)
    requires EvaluateSubtree(r, args, env).Err?
    ensures EvaluateSubtree(l, args, env) == Ok(BooleanLit(false)) ==>
      EvaluateSubtree(Binary(And, l, r), args, env) == Err(EvaluateSubtree(r, args, env).error)
    ensures EvaluateSubtree(l, args, env) == Ok(BooleanLit(true)) ==>
      EvaluateSubtree(Binary(Or, l, r), args, env) == Err(EvaluateSubtree(r, args, env).error)
  {
  }

  /** Evaluation reads only the arguments the tree refers to. */
  lemma {:induction false} DependsOnlyOnReferencedKeys(e: Expr, a1: MapArgResolver, a2: MapArgResolver, env: Env)
    requires forall k :: k in Keys(e) ==> a1.Resolve(k) == a2.Resolve(k)
    ensures EvaluateSubtree(e, a1, env) == EvaluateSubtree(e, a2, env)
  {
    match e
    case VarRef(key) =>
      assert key in Keys(e);
    case Paren(inner) =>
      DependsOnlyOnReferencedKeys(inner, a1, a2, env);
    case Binary(op, lhs, rhs) =>
      DependsOnlyOnReferencedKeys(lhs, a1, a2, env);
      DependsOnlyOnReferencedKeys(rhs, a1, a2, env);
    case _ =>
  }

  /**
   * A crash needs a NEREG node, a referenced argument whose coercion
   * crashes, or a nil number-collection pointer (as an argument or a
   * literal) that a membership test reads; without any of them, every
   * failure is an ordinary error.
   */
  lemma {:induction false} PanicsOnlyFromHazards(e: Expr, args: MapArgResolver, env: Env)
    requires Nereg !in Ops(e)
    requires !HoldsNilCollection(e)
    requires forall k :: k in Keys(e) && k in args.args ==>
      !PanicsOnCoercion(args.args[k]) && !args.args[k].NilNumberCollectionPtr?
    ensures EvaluateSubtree(e, args, env).Err? ==> !EvaluateSubtree(e, args, env).error.Panic?
    ensures EvaluateSubtree(e, args, env).Ok? ==> !EvaluateSubtree(e, args, env).value.NilNumberCollectionLit?
  {
    match e
    case VarRef(key) =>
      assert key in Keys(e);
      if key in args.args {
        CoercePanicsExactly(key, args.args[key], env);
      }
    case Paren(inner) =>
      PanicsOnlyFromHazards(inner, args, env);
    case Binary(op, lhs, rhs) =>
      PanicsOnlyFromHazards(lhs, args, env);
      PanicsOnlyFromHazards(rhs, args, env);
    case _ =>
  }

  /**
   * A nil `*MapNumberCollection` argument is accepted, and the membership
   * test that reads it crashes; other operators only see a non-number.
   */
  lemma NilCollectionPointerCrashes(n: real, env: Env)
    ensures Evaluate(Binary(In, NumberLit(n), VarRef("c")), map["c" := NilNumberCollectionPtr], env) == Err(Panic(NilDereference))
    ensures Evaluate(Binary(Contains, VarRef("c"), NumberLit(n)), map["c" := NilNumberCollectionPtr], env) == Err(Panic(NilDereference))
    ensures Evaluate(Binary(Gt, VarRef("c"), NumberLit(n)), map["c" := NilNumberCollectionPtr], env) == Err(NotNumber)
  {
    var args := MapArgResolver(map["c" := NilNumberCollectionPtr]);
    assert EvaluateSubtree(VarRef("c"), args, env) == Ok(NilNumberCollectionLit);
    assert EvaluateSubtree(NumberLit(n), args, env) == Ok(NumberLit(n));
  }

  /** `age > 18`: true for the number 25, a type error for the string "25", an error for a missing key. */
  lemma AgeExample(env: Env)
    ensures Evaluate(Binary(Gt, VarRef("age"), NumberLit(18.0)), map["age" := Int(25)], env) == Ok(true)
    ensures Evaluate(Binary(Gt, VarRef("age"), NumberLit(18.0)), map["age" := Str("25")], env) == Err(NotNumber)
    ensures Evaluate(Binary(Gt, VarRef("age"), NumberLit(18.0)), map[], env) == Err(KeyNotResolved("age"))
  {
  }

  /** A root that reduces to a number or a string is rejected; a boolean root gives its value. */
  lemma RootResultExamples(n: real, s: string, b: bool, env: Env)
    ensures Evaluate(NumberLit(n), map[], env) == Err(InvalidRootResult)
    ensures Evaluate(VarRef("x"), map["x" := Str(s)], env) == Err(InvalidRootResult)
    ensures Evaluate(Paren(BooleanLit(b)), map[], env) == Ok(b)
  {
  }
}
