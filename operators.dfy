/**
 * The operator semantics (evaluator.go:239-627): one function per operator
 * from two reduced nodes to a boolean or an error, and the dispatcher.
 */
module Operators {
  import opened Wrappers
  import opened Collection
  import opened Ast
  import opened Errors
  import opened Numeric
  import opened Environment

  // Accessors: the payload of a literal of the expected kind, or an error.

  function GetBoolean(e: Expr): (r: Result<bool, Error>)
    ensures r.Ok? <==> e.BooleanLit?
    ensures r.Ok? ==> r.value == e.b
    ensures r.Err? ==> r.error == NotBoolean
  {
    if e.BooleanLit? then Ok(e.b) else Err(NotBoolean)
  }

  function GetNumber(e: Expr): (r: Result<real, Error>)
    ensures r.Ok? <==> e.NumberLit?
    ensures r.Ok? ==> r.value == e.n
    ensures r.Err? ==> r.error == NotNumber
  {
    if e.NumberLit? then Ok(e.n) else Err(NotNumber)
  }

  function GetString(e: Expr): (r: Result<string, Error>)
    ensures r.Ok? <==> e.StringLit?
    ensures r.Ok? ==> r.value == e.s
    ensures r.Err? ==> r.error == NotString
  {
    if e.StringLit? then Ok(e.s) else Err(NotString)
  }

  function GetSliceNumber(e: Expr): (r: Result<seq<real>, Error>)
    ensures r.Ok? <==> e.SliceNumberLit?
    ensures r.Ok? ==> r.value == e.ns
    ensures r.Err? ==> r.error == NotSliceNumber
  {
    if e.SliceNumberLit? then Ok(e.ns) else Err(NotSliceNumber)
  }

  /** The membership set a string slice literal keeps beside its elements. */
  function GetMapString(e: Expr): (r: Result<set<string>, Error>)
    ensures r.Ok? <==> e.SliceStringLit?
    ensures r.Ok? ==> forall x :: x in r.value <==> x in e.ss
    ensures r.Err? ==> r.error == NotSliceString
  {
    if e.SliceStringLit? then Ok(set x | x in e.ss) else Err(NotSliceString)
  }

  // Logical operators

  function ApplyAND(l: Expr, r: Expr): (res: Result<bool, Error>)
    ensures res.Ok? <==> l.BooleanLit? && r.BooleanLit?
    ensures res.Ok? ==> res.value == (l.b && r.b)
    ensures res.Err? ==> res.error == NotBoolean
  {
    var a :- GetBoolean(l);
    var b :- GetBoolean(r);
    Ok(a && b)
  }

  function ApplyOR(l: Expr, r: Expr): (res: Result<bool, Error>)
    ensures res.Ok? <==> l.BooleanLit? && r.BooleanLit?
    ensures res.Ok? ==> res.value == (l.b || r.b)
    ensures res.Err? ==> res.error == NotBoolean
  {
    var a :- GetBoolean(l);
    var b :- GetBoolean(r);
    Ok(a || b)
  }

  function ApplyXOR(l: Expr, r: Expr): (res: Result<bool, Error>)
    ensures res.Ok? <==> l.BooleanLit? && r.BooleanLit?
    ensures res.Ok? ==> res.value == (l.b != r.b)
    ensures res.Err? ==> res.error == NotBoolean
  {
    var a :- GetBoolean(l);
    var b :- GetBoolean(r);
    Ok(a != b)
  }

  function ApplyNAND(l: Expr, r: Expr): (res: Result<bool, Error>)
    ensures res.Ok? <==> l.BooleanLit? && r.BooleanLit?
    ensures res.Ok? ==> res.value == !(l.b && r.b)
    ensures res.Err? ==> res.error == NotBoolean
  {
    var a :- GetBoolean(l);
    var b :- GetBoolean(r);
    Ok(!(a && b))
  }

  // Equality

  /**
   * Keyed on the left operand: a string must meet a string, a number a
   * number (compared with tolerance), a boolean a boolean; a left operand
   * of any other kind compares unequal without an error.
   */
  function ApplyEQ(l: Expr, r: Expr, epsilon: real): (res: Result<bool, Error>)
    ensures l.StringLit? ==> res == if r.StringLit? then Ok(l.s == r.s) else Err(NotString)
    ensures l.NumberLit? ==> res == if r.NumberLit? then Ok(Float64Equal(l.n, r.n, epsilon)) else Err(NotNumber)
    ensures l.BooleanLit? ==> res == if r.BooleanLit? then Ok(l.b == r.b) else Err(NotBoolean)
    ensures !l.StringLit? && !l.NumberLit? && !l.BooleanLit? ==> res == Ok(false)
  {
    match l
    case StringLit(a) =>
      var b :- GetString(r);
      Ok(a == b)
    case NumberLit(a) =>
      var b :- GetNumber(r);
      Ok(Float64Equal(a, b, epsilon))
    case BooleanLit(a) =>
      var b :- GetBoolean(r);
      Ok(a == b)
    case _ => Ok(false)
  }

  function ApplyNEQ(l: Expr, r: Expr, epsilon: real): (res: Result<bool, Error>)
    ensures res.Ok? <==> ApplyEQ(l, r, epsilon).Ok?
    ensures res.Ok? ==> res.value == !ApplyEQ(l, r, epsilon).value
    ensures res.Err? ==> res.error == ApplyEQ(l, r, epsilon).error
  {
    var eq :- ApplyEQ(l, r, epsilon);
    Ok(!eq)
  }

  // Ordering

  function ApplyGT(l: Expr, r: Expr): (res: Result<bool, Error>)
    ensures res.Ok? <==> l.NumberLit? && r.NumberLit?
    ensures res.Ok? ==> res.value == (l.n > r.n)
    ensures res.Err? ==> res.error == NotNumber
  {
    var a :- GetNumber(l);
    var b :- GetNumber(r);
    Ok(a > b)
  }

  function ApplyGTE(l: Expr, r: Expr, epsilon: real): (res: Result<bool, Error>)
    ensures res.Ok? <==> l.NumberLit? && r.NumberLit?
    ensures res.Ok? && l.n >= r.n ==> res.value
    ensures res.Ok? && res.value ==> l.n >= r.n || Abs(l.n - r.n) <= epsilon
    ensures res.Err? ==> res.error == NotNumber
  {
    var a :- GetNumber(l);
    var b :- GetNumber(r);
    Ok(a > b || Float64Equal(a, b, epsilon))
  }

  function ApplyLT(l: Expr, r: Expr): (res: Result<bool, Error>)
    ensures res.Ok? <==> l.NumberLit? && r.NumberLit?
    ensures res.Ok? ==> res.value == (l.n < r.n)
    ensures res.Err? ==> res.error == NotNumber
  {
    var a :- GetNumber(l);
    var b :- GetNumber(r);
    Ok(a < b)
  }

  function ApplyLTE(l: Expr, r: Expr, epsilon: real): (res: Result<bool, Error>)
    ensures res.Ok? <==> l.NumberLit? && r.NumberLit?
    ensures res.Ok? && l.n <= r.n ==> res.value
    ensures res.Ok? && res.value ==> l.n <= r.n || Abs(l.n - r.n) <= epsilon
    ensures res.Err? ==> res.error == NotNumber
  {
    var a :- GetNumber(l);
    var b :- GetNumber(r);
    Ok(a < b || Float64Equal(a, b, epsilon))
  }

  // Membership

  /** Some element of the slice is within tolerance of the number. */
  predicate SliceHasNumber(b: seq<real>, a: real, epsilon: real) {
    exists i :: 0 <= i < |b| && Float64Equal(a, b[i], epsilon)
  }

  /**
   * The linear scan over a number slice, stopping at the first element
   * within tolerance (evaluator.go:368-375).
   */
  method ScanSliceNumber(a: real, b: seq<real>, epsilon: real) returns (found: bool)
    ensures found == SliceHasNumber(b, a, epsilon)
  {
    found := false;
    var i := 0;
    while i < |b|
      invariant 0 <= i <= |b|
      invariant !found
      invariant forall j :: 0 <= j < i ==> !Float64Equal(a, b[j], epsilon)
    {
      if Float64Equal(a, b[i], epsilon) {
        found := true;
        break;
      }
      i := i + 1;
    }
  }

  /**
   * A string left operand is looked up in a string set or a string slice;
   * a number left operand in a number set (exactly) or a number slice
   * (with tolerance); any other left operand is an error.
   */
  function ApplyIN(l: Expr, r: Expr, epsilon: real): (res: Result<bool, Error>)
    ensures l.StringLit? && r.StringCollectionLit? ==> res == Ok(r.sc.Has(l.s))
    ensures l.StringLit? && r.SliceStringLit? ==> res == Ok(l.s in r.ss)
    ensures l.StringLit? && !r.StringCollectionLit? && !r.SliceStringLit? ==> res == Err(NotSliceString)
    ensures l.NumberLit? && r.NumberCollectionLit? ==> res == Ok(r.nc.Has(l.n))
    ensures l.NumberLit? && r.NilNumberCollectionLit? ==> res == Err(Panic(NilDereference))
    ensures l.NumberLit? && r.SliceNumberLit? ==> res == Ok(exists i :: 0 <= i < |r.ns| && Float64Equal(l.n, r.ns[i], epsilon))
    ensures l.NumberLit? && !r.NumberCollectionLit? && !r.NilNumberCollectionLit? && !r.SliceNumberLit? ==> res == Err(NotSliceNumber)
    ensures !l.StringLit? && !l.NumberLit? ==> res == Err(UnknownLiteral)
    ensures res.Err? && res.error.Panic? ==> l.NumberLit? && r.NilNumberCollectionLit?
  {
    match l
    case StringLit(a) =>
      if r.StringCollectionLit? then Ok(r.sc.Has(a))
      else
        var b :- GetMapString(r);
        Ok(a in b)
    case NumberLit(a) =>
      if r.NumberCollectionLit? then Ok(r.nc.Has(a))
      else if r.NilNumberCollectionLit? then Err(Panic(NilDereference))
      else
        var b :- GetSliceNumber(r);
        Ok(SliceHasNumber(b, a, epsilon))
    case _ => Err(UnknownLiteral)
  }

  function ApplyNOTIN(l: Expr, r: Expr, epsilon: real): (res: Result<bool, Error>)
    ensures res.Ok? <==> ApplyIN(l, r, epsilon).Ok?
    ensures res.Ok? ==> res.value == !ApplyIN(l, r, epsilon).value
    ensures res.Err? ==> res.error == ApplyIN(l, r, epsilon).error
  {
    var found :- ApplyIN(l, r, epsilon);
    Ok(!found)
  }

  /** The container-on-the-left form of IN. */
  function ApplyCONTAINS(l: Expr, r: Expr, epsilon: real): (res: Result<bool, Error>)
    ensures l.StringCollectionLit? && r.StringLit? ==> res == Ok(l.sc.Has(r.s))
    ensures l.SliceStringLit? && r.StringLit? ==> res == Ok(r.s in l.ss)
    ensures l.NumberCollectionLit? && r.NumberLit? ==> res == Ok(l.nc.Has(r.n))
    ensures l.NilNumberCollectionLit? && r.NumberLit? ==> res == Err(Panic(NilDereference))
    ensures l.SliceNumberLit? && r.NumberLit? ==> res == Ok(exists i :: 0 <= i < |l.ns| && Float64Equal(r.n, l.ns[i], epsilon))
    ensures !r.StringLit? && !r.NumberLit? ==> res == Err(UnknownLiteral)
  {
    ApplyIN(r, l, epsilon)
  }

  function ApplyNOTCONTAINS(l: Expr, r: Expr, epsilon: real): (res: Result<bool, Error>)
    ensures res.Ok? <==> ApplyCONTAINS(l, r, epsilon).Ok?
    ensures res.Ok? ==> res.value == !ApplyCONTAINS(l, r, epsilon).value
    ensures res.Err? ==> res.error == ApplyCONTAINS(l, r, epsilon).error
  {
    var found :- ApplyCONTAINS(l, r, epsilon);
    Ok(!found)
  }

  // Regular expressions

  /** The right operand is the pattern, the left the subject; a malformed pattern is an error. */
  function ApplyEREG(l: Expr, r: Expr, env: Env): (res: Result<bool, Error>)
    ensures res.Ok? <==> l.StringLit? && r.StringLit? && env.matchString(r.s, l.s).Some?
    ensures res.Ok? ==> res.value == env.matchString(r.s, l.s).value
    ensures !l.StringLit? || !r.StringLit? ==> res == Err(NotString)
    ensures l.StringLit? && r.StringLit? && res.Err? ==> res.error == InvalidPattern(r.s)
  {
    var a :- GetString(l);
    var b :- GetString(r);
    match env.matchString(b, a)
    case None => Err(InvalidPattern(b))
    case Some(m) => Ok(m)
  }

  /**
   * Negates EREG. When EREG rejects an operand it returns no result, and
   * the source dereferences it (evaluator.go:279-280): a crash, modelled
   * as a panic outcome. A malformed pattern stays an error.
   */
  function ApplyNEREG(l: Expr, r: Expr, env: Env): (res: Result<bool, Error>)
    ensures res.Ok? <==> ApplyEREG(l, r, env).Ok?
    ensures res.Ok? ==> res.value == !ApplyEREG(l, r, env).value
    ensures !l.StringLit? || !r.StringLit? ==> res == Err(Panic(NilDereference))
    ensures l.StringLit? && r.StringLit? && res.Err? ==> res.error == InvalidPattern(r.s)
  {
    match ApplyEREG(l, r, env)
    case Ok(m) => Ok(!m)
    case Err(InvalidPattern(p)) => Err(InvalidPattern(p))
    case Err(_) => Err(Panic(NilDereference))
  }

  // Dispatch

  /** Applies the operator the token names; a token that names no operator is an error. */
  function ApplyOperator(op: Token, l: Expr, r: Expr, env: Env): (res: Result<bool, Error>)
    ensures op.NonOperator? ==> res == Err(UnsupportedOperator(op))
    ensures res.Err? && res.error.UnsupportedOperator? ==> op.NonOperator?
    ensures res.Err? && res.error.Panic? ==>
      || op == Nereg
      || ((op == In || op == NotIn) && l.NumberLit? && r.NilNumberCollectionLit?)
      || ((op == Contains || op == NotContains) && l.NilNumberCollectionLit? && r.NumberLit?)
  {
    match op
    case And => ApplyAND(l, r)
    case Or => ApplyOR(l, r)
    case Eq => ApplyEQ(l, r, env.epsilon)
    case Neq => ApplyNEQ(l, r, env.epsilon)
    case Gt => ApplyGT(l, r)
    case Gte => ApplyGTE(l, r, env.epsilon)
    case Lt => ApplyLT(l, r)
    case Lte => ApplyLTE(l, r, env.epsilon)
    case Xor => ApplyXOR(l, r)
    case Nand => ApplyNAND(l, r)
    case In => ApplyIN(l, r, env.epsilon)
    case NotIn => ApplyNOTIN(l, r, env.epsilon)
    case Ereg => ApplyEREG(l, r, env)
    case Nereg => ApplyNEREG(l, r, env)
    case Contains => ApplyCONTAINS(l, r, env.epsilon)
    case NotContains => ApplyNOTCONTAINS(l, r, env.epsilon)
    case NonOperator(_) => Err(UnsupportedOperator(op))
  }
}
