/** Tolerant comparison of numbers (evaluator.go:629-645). */
module Numeric {

  /** `math.SmallestNonzeroFloat32`, 2^-149. */
  const SmallestNonzeroFloat32: real := 1.0 / 713623846352979940529142984724747568191373312.0

  /** `math.MaxFloat64`, (2^53 - 1) * 2^971. */
  const MaxFloat64: real := 179769313486231570814527423731704356798070567525844996598917476803157260780028538760589558632766878171540458953514382464234321326889464182768467546703537516986049910576551282076245490090389328944075868508455133942304583236903222948165808559332123348274797826204144723168738177180919299881250404026184124858368.0

  function Abs(x: real): (r: real)
    ensures r >= 0.0 && (r == x || r == -x)
  {
    if x < 0.0 then -x else x
  }

  function Min(a: real, b: real): (r: real)
    ensures r <= a && r <= b && (r == a || r == b)
  {
    if a <= b then a else b
  }

  /**
   * Equal numbers are equal; numbers further apart than epsilon are not;
   * against zero the bound is epsilon scaled down to the smallest float32;
   * otherwise the difference relative to the sum of magnitudes must be
   * below epsilon.
   */
  function Float64Equal(a: real, b: real, epsilon: real): (eq: bool)
    ensures a == b ==> eq
    ensures a != b && Abs(a - b) > epsilon ==> !eq
    ensures a != b && (a == 0.0 || b == 0.0) ==> (eq <==> Abs(a - b) < epsilon * SmallestNonzeroFloat32)
  {
    var diff := Abs(a - b);
    if a == b then true
    else if diff > epsilon then false
    else if a == 0.0 || b == 0.0 then diff < epsilon * SmallestNonzeroFloat32
    else diff / Min(Abs(a) + Abs(b), MaxFloat64) < epsilon
  }

  lemma Float64EqualReflexive(a: real, epsilon: real)
    ensures Float64Equal(a, a, epsilon)
  {
  }

  lemma Float64EqualSymmetric(a: real, b: real, epsilon: real)
    ensures Float64Equal(a, b, epsilon) == Float64Equal(b, a, epsilon)
  {
  }

  /**
   * Away from zero and below the overflow cap, the relative test is
   * "the difference is below epsilon times the sum of magnitudes".
   */
  lemma Float64EqualRelative(a: real, b: real, epsilon: real)
    requires a != b && a != 0.0 && b != 0.0
    requires Abs(a) + Abs(b) <= MaxFloat64
    ensures Float64Equal(a, b, epsilon)
        <==> Abs(a - b) <= epsilon && Abs(a - b) < epsilon * (Abs(a) + Abs(b))
  {
    var diff, s := Abs(a - b), Abs(a) + Abs(b);
    assert s > 0.0 && Min(s, MaxFloat64) == s;
    DivBelow(diff, s, epsilon);
  }

  lemma DivBelow(x: real, s: real, epsilon: real)
    requires s > 0.0
    ensures x / s < epsilon <==> x < epsilon * s
  {
    assert x == (x / s) * s;
  }

  /** Close to zero the test is effectively exact: only numbers below the smallest float32 qualify. */
  lemma Float64EqualNearZero(a: real, epsilon: real)
    requires a != 0.0 && epsilon <= 1.0
    ensures Float64Equal(a, 0.0, epsilon) ==> Abs(a) < SmallestNonzeroFloat32
  {
    if Float64Equal(a, 0.0, epsilon) {
      assert Abs(a - 0.0) < epsilon * SmallestNonzeroFloat32;
      assert epsilon * SmallestNonzeroFloat32 <= SmallestNonzeroFloat32;
    }
  }

  /** Two examples at the default tolerance. */
  lemma Float64EqualExamples()
    ensures Float64Equal(1.0000001, 1.0000002, 0.000001)
    ensures !Float64Equal(1.0, 1.1, 0.000001)
  {
    Float64EqualRelative(1.0000001, 1.0000002, 0.000001);
  }
}
