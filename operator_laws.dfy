/** Relations between the operators, stated for every pair of operands. */
module OperatorLaws {
  import opened Wrappers
  import opened Collection
  import opened Ast
  import opened Errors
  import opened Numeric
  import opened Environment
  import opened Operators

  /** AND, OR, XOR and NAND on all four combinations of boolean operands. */
  lemma LogicalTruthTables()
    ensures ApplyAND(BooleanLit(false), BooleanLit(false)) == Ok(false)
    ensures ApplyAND(BooleanLit(false), BooleanLit(true)) == Ok(false)
    ensures ApplyAND(BooleanLit(true), BooleanLit(false)) == Ok(false)
    ensures ApplyAND(BooleanLit(true), BooleanLit(true)) == Ok(true)
    ensures ApplyOR(BooleanLit(false), BooleanLit(false)) == Ok(false)
    ensures ApplyOR(BooleanLit(false), BooleanLit(true)) == Ok(true)
    ensures ApplyOR(BooleanLit(true), BooleanLit(false)) == Ok(true)
    ensures ApplyOR(BooleanLit(true), BooleanLit(true)) == Ok(true)
    ensures ApplyXOR(BooleanLit(false), BooleanLit(false)) == Ok(false)
    ensures ApplyXOR(BooleanLit(false), BooleanLit(true)) == Ok(true)
    ensures ApplyXOR(BooleanLit(true), BooleanLit(false)) == Ok(true)
    ensures ApplyXOR(BooleanLit(true), BooleanLit(true)) == Ok(false)
    ensures ApplyNAND(BooleanLit(false), BooleanLit(false)) == Ok(true)
    ensures ApplyNAND(BooleanLit(false), BooleanLit(true)) == Ok(true)
    ensures ApplyNAND(BooleanLit(true), BooleanLit(false)) == Ok(true)
    ensures ApplyNAND(BooleanLit(true), BooleanLit(true)) == Ok(false)
  {
  }

  /** NAND is the negation of AND, and XOR is OR without AND, errors included. */
  lemma LogicalOperatorsAgree(l: Expr, r: Expr)
    ensures ApplyNAND(l, r).Ok? == ApplyAND(l, r).Ok?
    ensures ApplyNAND(l, r).Ok? ==> ApplyNAND(l, r).value == !ApplyAND(l, r).value
    ensures ApplyXOR(l, r).Ok? ==> ApplyXOR(l, r).value == (ApplyOR(l, r).value && ApplyNAND(l, r).value)
    ensures ApplyXOR(l, r).Err? ==> ApplyXOR(l, r) == ApplyAND(l, r) == ApplyOR(l, r) == ApplyNAND(l, r)
  {
  }

  /** Each negated operator is its positive partner negated on success, with the same error otherwise. */
  lemma NegatedPairs(l: Expr, r: Expr, env: Env)
    ensures Negates(ApplyOperator(Neq, l, r, env), ApplyOperator(Eq, l, r, env))
    ensures Negates(ApplyOperator(NotIn, l, r, env), ApplyOperator(In, l, r, env))
    ensures Negates(ApplyOperator(NotContains, l, r, env), ApplyOperator(Contains, l, r, env))
    ensures ApplyOperator(Ereg, l, r, env).Ok? ==> ApplyOperator(Nereg, l, r, env) == Ok(!ApplyOperator(Ereg, l, r, env).value)
  {
    assert Negates(ApplyNEQ(l, r, env.epsilon), ApplyEQ(l, r, env.epsilon));
    assert Negates(ApplyNOTIN(l, r, env.epsilon), ApplyIN(l, r, env.epsilon));
    assert Negates(ApplyNOTCONTAINS(l, r, env.epsilon), ApplyCONTAINS(l, r, env.epsilon));
  }

  predicate Negates(neg: Result<bool, Error>, pos: Result<bool, Error>) {
    match pos
    case Ok(v) => neg == Ok(!v)
    case Err(e) => neg == Err(e)
  }

  /** CONTAINS is IN with its operands swapped. */
  lemma ContainsIsSwappedIn(l: Expr, r: Expr, env: Env)
    ensures ApplyOperator(Contains, l, r, env) == ApplyOperator(In, r, l, env)
    ensures ApplyOperator(NotContains, l, r, env) == ApplyOperator(NotIn, r, l, env)
  {
  }

  /** EQ is reflexive on strings, numbers and booleans. */
  lemma EqReflexive(x: Expr, epsilon: real)
    requires x.StringLit? || x.NumberLit? || x.BooleanLit?
    ensures ApplyEQ(x, x, epsilon) == Ok(true)
    ensures ApplyNEQ(x, x, epsilon) == Ok(false)
  {
  }

  /** Between operands of the same comparable kind, EQ does not depend on their order. */
  lemma EqSymmetricOnSameKind(l: Expr, r: Expr, epsilon: real)
    requires (l.StringLit? && r.StringLit?) || (l.NumberLit? && r.NumberLit?) || (l.BooleanLit? && r.BooleanLit?)
    ensures ApplyEQ(l, r, epsilon) == ApplyEQ(r, l, epsilon)
  {
    if l.NumberLit? {
      Float64EqualSymmetric(l.n, r.n, epsilon);
    }
  }

  /**
   * A left operand that is not a string, number or boolean makes EQ false
   * without an error, whatever the right operand, even the same value;
   * NEQ is then true.
   */
  lemma EqFallsBackToFalse(l: Expr, r: Expr, epsilon: real)
    requires !l.StringLit? && !l.NumberLit? && !l.BooleanLit?
    ensures ApplyEQ(l, r, epsilon) == Ok(false)
    ensures ApplyEQ(l, l, epsilon) == Ok(false)
    ensures ApplyNEQ(l, r, epsilon) == Ok(true)
  {
  }

  /** With the operands swapped, the same pair is an error: EQ is asymmetric across kinds. */
  lemma EqAsymmetricAcrossKinds(epsilon: real)
    ensures ApplyEQ(SliceNumberLit([1.0]), NumberLit(1.0), epsilon) == Ok(false)
    ensures ApplyEQ(NumberLit(1.0), SliceNumberLit([1.0]), epsilon) == Err(NotNumber)
  {
  }

  /** GT is LT with its operands swapped, and GTE is LTE swapped, errors included. */
  lemma OrderingIsSwapped(l: Expr, r: Expr, epsilon: real)
    ensures ApplyGT(l, r) == ApplyLT(r, l)
    ensures ApplyGTE(l, r, epsilon) == ApplyLTE(r, l, epsilon)
  {
    if l.NumberLit? && r.NumberLit? {
      Float64EqualSymmetric(l.n, r.n, epsilon);
    }
  }

  /** On numbers, GTE is GT or EQ and LTE is LT or EQ; GT and LT are strict. */
  lemma InclusiveOrderingIsStrictOrEqual(l: Expr, r: Expr, epsilon: real)
    requires l.NumberLit? && r.NumberLit?
    ensures ApplyGTE(l, r, epsilon) == Ok(ApplyGT(l, r).value || ApplyEQ(l, r, epsilon).value)
    ensures ApplyLTE(l, r, epsilon) == Ok(ApplyLT(l, r).value || ApplyEQ(l, r, epsilon).value)
    ensures ApplyGT(l, l) == ApplyLT(l, l) == Ok(false)
  {
  }

  /** Three comparisons at the default tolerance. */
  lemma ComparisonExamples()
    ensures ApplyEQ(NumberLit(1.0000001), NumberLit(1.0000002), DefaultEpsilon) == Ok(true)
    ensures ApplyEQ(NumberLit(1.0), NumberLit(1.1), DefaultEpsilon) == Ok(false)
    ensures ApplyGTE(NumberLit(5.0000001), NumberLit(5.0), DefaultEpsilon) == Ok(true)
  {
    Float64EqualExamples();
  }

  /** An empty slice contains nothing. */
  lemma InEmptySliceIsFalse(a: real, s: string, epsilon: real)
    ensures ApplyIN(NumberLit(a), SliceNumberLit([]), epsilon) == Ok(false)
    ensures ApplyIN(StringLit(s), SliceStringLit([]), epsilon) == Ok(false)
  {
  }

  /** For strings, a set and a slice with the same elements give the same IN result. */
  lemma InStringRepresentationIndependent(s: string, ss: seq<string>, epsilon: real)
    ensures ApplyIN(StringLit(s), StringCollectionLit(MapStringCollection(set x | x in ss)), epsilon)
         == ApplyIN(StringLit(s), SliceStringLit(ss), epsilon)
  {
  }

  /**
   * For numbers, membership in a set built from a list implies membership
   * in the slice of the same list.
   */
  lemma InNumberSetImpliesSlice(a: real, xs: seq<real>, epsilon: real)
    requires ApplyIN(NumberLit(a), NumberCollectionLit(ListCollection(xs)), epsilon) == Ok(true)
    ensures ApplyIN(NumberLit(a), SliceNumberLit(xs), epsilon) == Ok(true)
  {
    ListCollectionMembers(xs, a);
    var i :| 0 <= i < |xs| && xs[i] == a;
    assert Float64Equal(a, xs[i], epsilon);
  }

  /** The converse fails: the set compares exactly, the slice with tolerance. */
  lemma InNumberRepresentationsDiffer()
    ensures ApplyIN(NumberLit(1.0000001), NumberCollectionLit(ListCollection([1.0000002])), DefaultEpsilon) == Ok(false)
    ensures ApplyIN(NumberLit(1.0000001), SliceNumberLit([1.0000002]), DefaultEpsilon) == Ok(true)
  {
    ListCollectionMembers([1.0000002], 1.0000001);
    Float64EqualExamples();
    var b := [1.0000002];
    assert Float64Equal(1.0000001, b[0], DefaultEpsilon);
  }
}
