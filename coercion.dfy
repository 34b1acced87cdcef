/**
 * Turns a resolved host argument into a literal node
 * (evaluator.go:80-236).
 */
module Coercion {
  import opened Wrappers
  import opened Collection
  import opened Host
  import opened Ast
  import opened Errors
  import opened Environment

  /** Every element widened to a number, in order. */
  function Widened<T>(xs: seq<T>, widen: T -> real): (vals: seq<real>)
    ensures |vals| == |xs| && forall i :: 0 <= i < |xs| ==> vals[i] == widen(xs[i])
  {
    seq(|xs|, i requires 0 <= i < |xs| => widen(xs[i]))
  }

  /**
   * Builds a number slice by appending the widened elements one by one, as
   * the typed-slice cases do (evaluator.go:113-149).
   */
  method AppendWidened<T>(xs: seq<T>, widen: T -> real) returns (vals: seq<real>)
    ensures vals == Widened(xs, widen)
  {
    vals := [];
    for i := 0 to |xs|
      invariant |vals| == i
      invariant forall j :: 0 <= j < i ==> vals[j] == widen(xs[j])
    {
      vals := vals + [widen(xs[i])];
    }
  }

  function IntToNumber(i: int): real {
    i as real
  }

  function FloatToNumber(x: real): real {
    x
  }

  /**
   * A JSON number inside a slice: the parse error is dropped and zero is
   * appended, the value `ParseFloat` gives for text that is not a number.
   */
  function JsonToNumber(env: Env): string -> real {
    (t: string) => env.parseFloat(t).GetOr(0.0)
  }

  // Type assertions on the elements of a `[]interface{}`.

  function AsString(raw: Raw): Option<string> {
    if raw.Str? then Some(raw.s) else None
  }

  function AsFloat64(raw: Raw): Option<real> {
    if raw.Float64? then Some(raw.x) else None
  }

  function AsJsonNumber(env: Env): Raw -> Option<real> {
    (raw: Raw) => if raw.JsonNumber? then Some(env.parseFloat(raw.text).GetOr(0.0)) else None
  }

  /** Every element passed through the assertion, or `None` if one of them fails it. */
  function AssertAll<T>(items: seq<Raw>, assertion: Raw -> Option<T>): (r: Option<seq<T>>)
    ensures r.Some? <==> forall i :: 0 <= i < |items| ==> assertion(items[i]).Some?
    ensures r.Some? ==> |r.value| == |items|
    ensures r.Some? ==> forall i :: 0 <= i < |items| ==> r.value[i] == assertion(items[i]).value
  {
    if forall i :: 0 <= i < |items| ==> assertion(items[i]).Some? then
      Some(seq(|items|, i requires 0 <= i < |items| => assertion(items[i]).value))
    else
      None
  }

  /**
   * Appends each element of a `[]interface{}` after asserting its type
   * (evaluator.go:156-174); the first element that fails the assertion
   * ends the loop, where the source panics.
   */
  method CollectAsserted<T>(items: seq<Raw>, assertion: Raw -> Option<T>) returns (r: Option<seq<T>>)
    ensures r == AssertAll(items, assertion)
  {
    var vals: seq<T> := [];
    for i := 0 to |items|
      invariant |vals| == i
      invariant forall j :: 0 <= j < i ==> assertion(items[j]).Some? && vals[j] == assertion(items[j]).value
    {
      match assertion(items[i])
      case None =>
        assert !assertion(items[i]).Some?;
        return None;
      case Some(v) =>
        vals := vals + [v];
    }
    r := Some(vals);
    assert vals == AssertAll(items, assertion).value;
  }

  /** A `[]interface{}` is classified by its first element alone (evaluator.go:150-176). */
  function CoerceInterfaceSlice(key: string, items: seq<Raw>, env: Env): (r: Result<Expr, Error>)
    ensures r.Ok? ==> r.value.SliceStringLit? || r.value.SliceNumberLit?
    ensures r.Err? && r.error.UnsupportedType? ==> r.error == UnsupportedType(key, KindOf(InterfaceSlice(items)))
  {
    if |items| == 0 then Err(UnsupportedType(key, SliceKind))
    else
      match items[0]
      case Str(_) =>
        (match AssertAll(items, AsString)
         case Some(ss) => Ok(SliceStringLit(ss))
         case None => Err(Panic(TypeAssertion)))
      case Float64(_) =>
        (match AssertAll(items, AsFloat64)
         case Some(xs) => Ok(SliceNumberLit(xs))
         case None => Err(Panic(TypeAssertion)))
      case JsonNumber(_) =>
        (match AssertAll(items, AsJsonNumber(env))
         case Some(xs) => Ok(SliceNumberLit(xs))
         case None => Err(Panic(TypeAssertion)))
      case _ => Err(UnsupportedType(key, SliceKind))
  }

  /**
   * A number collection, by value or by pointer; a nil pointer passes the
   * type assertion and gives a literal that points nowhere.
   */
  function TryCreateNumberCollectionLiteral(raw: Raw): (r: Option<Expr>)
    ensures r.Some? <==> raw.NumberCollection? || raw.NilNumberCollectionPtr?
    ensures raw.NumberCollection? ==> r == Some(NumberCollectionLit(raw.nc))
    ensures raw.NilNumberCollectionPtr? ==> r == Some(NilNumberCollectionLit)
  {
    match raw
    case NumberCollection(nc) => Some(NumberCollectionLit(nc))
    case NilNumberCollectionPtr => Some(NilNumberCollectionLit)
    case _ => None
  }

  /** A string collection, by value or by pointer. */
  function TryCreateStringCollectionLiteral(raw: Raw): (r: Option<Expr>)
    ensures r.Some? <==> raw.StringCollection?
    ensures r.Some? ==> r.value == StringCollectionLit(raw.sc)
  {
    if raw.StringCollection? then Some(StringCollectionLit(raw.sc)) else None
  }

  /**
   * A struct or pointer argument must be a number collection (tried
   * first) or a string collection, passed through unchanged.
   */
  function CreateCollectionLiteral(key: string, kind: Kind, raw: Raw): (r: Result<Expr, Error>)
    ensures r.Ok? <==> raw.NumberCollection? || raw.NilNumberCollectionPtr? || raw.StringCollection?
    ensures raw.NumberCollection? ==> r == Ok(NumberCollectionLit(raw.nc))
    ensures raw.NilNumberCollectionPtr? ==> r == Ok(NilNumberCollectionLit)
    ensures raw.StringCollection? ==> r == Ok(StringCollectionLit(raw.sc))
    ensures r.Err? ==> r.error == UnsupportedStructure(key, kind)
  {
    match TryCreateNumberCollectionLiteral(raw)
    case Some(e) => Ok(e)
    case None =>
      match TryCreateStringCollectionLiteral(raw)
      case Some(e) => Ok(e)
      case None => Err(UnsupportedStructure(key, kind))
  }

  /** The kinds the scalar cases assert to their built-in type. */
  predicate IsScalarKind(kind: Kind) {
    kind.IntKind? || kind.Int32Kind? || kind.Int64Kind? || kind.Float32Kind?
    || kind.Float64Kind? || kind.StringKind? || kind.BoolKind?
  }

  /**
   * The coercion of a resolved argument named `key`. A value of a named
   * type whose kind is a scalar kind fails the type assertion of its case
   * (`arg.(int)` on a `type Age int`), a crash in the source.
   */
  function Coerce(key: string, raw: Raw, env: Env): (r: Result<Expr, Error>)
    ensures r.Ok? ==> IsValue(r.value)
  {
    match raw
    case Nil => Err(UnsupportedNil)
    case Int(i) => Ok(NumberLit(IntToNumber(i)))
    case Int32(i) => Ok(NumberLit(IntToNumber(i)))
    case Int64(i) => Ok(NumberLit(IntToNumber(i)))
    case Float32(x) => Ok(NumberLit(FloatToNumber(x)))
    case Float64(x) => Ok(NumberLit(FloatToNumber(x)))
    case JsonNumber(t) =>
      (match env.parseFloat(t)
       case None => Err(UnsupportedJsonNumber(t, KindOf(raw)))
       case Some(f) => Ok(NumberLit(f)))
    case Str(s) => Ok(StringLit(s))
    case Bool(b) => Ok(BooleanLit(b))
    case StringSlice(ss) => Ok(SliceStringLit(ss))
    case IntSlice(xs) => Ok(SliceNumberLit(Widened(xs, IntToNumber)))
    case Int32Slice(xs) => Ok(SliceNumberLit(Widened(xs, IntToNumber)))
    case Int64Slice(xs) => Ok(SliceNumberLit(Widened(xs, IntToNumber)))
    case Float32Slice(xs) => Ok(SliceNumberLit(Widened(xs, FloatToNumber)))
    case Float64Slice(xs) => Ok(SliceNumberLit(Widened(xs, FloatToNumber)))
    case JsonNumberSlice(ts) => Ok(SliceNumberLit(Widened(ts, JsonToNumber(env))))
    case InterfaceSlice(items) => CoerceInterfaceSlice(key, items, env)
    case NumberCollection(_) => CreateCollectionLiteral(key, KindOf(raw), raw)
    case NilNumberCollectionPtr => CreateCollectionLiteral(key, KindOf(raw), raw)
    case StringCollection(_) => CreateCollectionLiteral(key, KindOf(raw), raw)
    case Other(kind) =>
      if IsScalarKind(kind) then Err(Panic(TypeAssertion))
      else if kind.StructKind? || kind.PtrKind? then CreateCollectionLiteral(key, KindOf(raw), raw)
      else Err(UnsupportedType(key, KindOf(raw)))
  }

  // Properties of the coercion

  /** Integers and floats of every listed width become numbers of the same value. */
  lemma CoerceNumbers(key: string, i: int, x: real, env: Env)
    ensures Coerce(key, Int(i), env) == Ok(NumberLit(i as real))
    ensures Coerce(key, Int32(i), env) == Ok(NumberLit(i as real))
    ensures Coerce(key, Int64(i), env) == Ok(NumberLit(i as real))
    ensures Coerce(key, Float32(x), env) == Ok(NumberLit(x))
    ensures Coerce(key, Float64(x), env) == Ok(NumberLit(x))
  {
  }

  /** A JSON number becomes its parsed value, or an error when it does not parse. */
  lemma CoerceJsonNumber(key: string, t: string, env: Env)
    ensures env.parseFloat(t).Some? ==> Coerce(key, JsonNumber(t), env) == Ok(NumberLit(env.parseFloat(t).value))
    ensures env.parseFloat(t).None? ==> Coerce(key, JsonNumber(t), env) == Err(UnsupportedJsonNumber(t, StringKind))
  {
  }

  /** A plain string stays a string even when it reads as a number; a bool becomes a boolean. */
  lemma CoerceStringsAndBools(key: string, s: string, b: bool, env: Env)
    ensures Coerce(key, Str(s), env) == Ok(StringLit(s))
    ensures Coerce(key, Bool(b), env) == Ok(BooleanLit(b))
  {
  }

  /**
   * Nil is an error; an empty `[]interface{}` and every unlisted kind are
   * errors that name the key and the kind.
   */
  lemma CoerceRejects(key: string, kind: Kind, env: Env)
    ensures Coerce(key, Nil, env) == Err(UnsupportedNil)
    ensures Coerce(key, InterfaceSlice([]), env) == Err(UnsupportedType(key, SliceKind))
    ensures !IsScalarKind(kind) && !kind.StructKind? && !kind.PtrKind? ==> Coerce(key, Other(kind), env) == Err(UnsupportedType(key, kind))
    ensures kind.StructKind? || kind.PtrKind? ==> Coerce(key, Other(kind), env) == Err(UnsupportedStructure(key, kind))
  {
  }

  /** Host sets pass through unchanged; a nil number-collection pointer is accepted too. */
  lemma CoerceCollections(key: string, nc: MapNumberCollection, sc: MapStringCollection, env: Env)
    ensures Coerce(key, NumberCollection(nc), env) == Ok(NumberCollectionLit(nc))
    ensures Coerce(key, NilNumberCollectionPtr, env) == Ok(NilNumberCollectionLit)
    ensures Coerce(key, StringCollection(sc), env) == Ok(StringCollectionLit(sc))
  {
  }

  /** Typed slices keep their length and order, element by element. */
  lemma CoerceTypedSlices(key: string, ints: seq<int>, xs: seq<real>, ts: seq<string>, ss: seq<string>, env: Env)
    ensures var r := Coerce(key, IntSlice(ints), env);
      r.Ok? && r.value.SliceNumberLit? && |r.value.ns| == |ints|
      && forall i :: 0 <= i < |ints| ==> r.value.ns[i] == ints[i] as real
    ensures var r := Coerce(key, Int32Slice(ints), env);
      r.Ok? && r.value.SliceNumberLit? && |r.value.ns| == |ints|
      && forall i :: 0 <= i < |ints| ==> r.value.ns[i] == ints[i] as real
    ensures var r := Coerce(key, Int64Slice(ints), env);
      r.Ok? && r.value.SliceNumberLit? && |r.value.ns| == |ints|
      && forall i :: 0 <= i < |ints| ==> r.value.ns[i] == ints[i] as real
    ensures Coerce(key, JsonNumberSlice(ts), env)
      == Ok(SliceNumberLit(seq(|ts|, i requires 0 <= i < |ts| => env.parseFloat(ts[i]).GetOr(0.0))))
    ensures Coerce(key, Float64Slice(xs), env) == Ok(SliceNumberLit(xs))
    ensures Coerce(key, Float32Slice(xs), env) == Ok(SliceNumberLit(xs))
    ensures Coerce(key, StringSlice(ss), env) == Ok(SliceStringLit(ss))
  {
    var ys := Widened(xs, FloatToNumber);
    assert ys == xs;
    var zs := Widened(ts, JsonToNumber(env));
    assert zs == seq(|ts|, i requires 0 <= i < |ts| => env.parseFloat(ts[i]).GetOr(0.0));
  }

  /**
   * A JSON number that does not parse is an error on its own, while inside
   * a slice the parse error is dropped and zero appended.
   */
  lemma JsonParseErrorIgnoredInSlices(key: string, t: string, env: Env)
    requires env.parseFloat(t).None?
    ensures Coerce(key, JsonNumber(t), env).Err?
    ensures Coerce(key, JsonNumberSlice([t]), env) == Ok(SliceNumberLit([0.0]))
    ensures Coerce(key, InterfaceSlice([JsonNumber(t)]), env) == Ok(SliceNumberLit([0.0]))
  {
    assert Widened([t], JsonToNumber(env)) == [0.0];
    var r := AssertAll([JsonNumber(t)], AsJsonNumber(env));
    assert r.Some? && r.value == [0.0];
  }

  /** Whether two elements of a `[]interface{}` have the same asserted type. */
  predicate SameElementType(a: Raw, b: Raw) {
    (a.Str? && b.Str?) || (a.Float64? && b.Float64?) || (a.JsonNumber? && b.JsonNumber?)
  }

  /** The host values whose coercion crashes the source. */
  predicate PanicsOnCoercion(raw: Raw) {
    || (raw.Other? && IsScalarKind(raw.kind))
    || (raw.InterfaceSlice? && |raw.items| > 0
        && (raw.items[0].Str? || raw.items[0].Float64? || raw.items[0].JsonNumber?)
        && exists i :: 0 <= i < |raw.items| && !SameElementType(raw.items[0], raw.items[i]))
  }

  /**
   * A `[]interface{}` led by a string, a float64 or a JSON number is
   * coerced element-wise when all elements share that type, and crashes
   * otherwise; led by anything else it is an error.
   */
  lemma {:induction false} CoerceInterfaceSliceByFirstElement(key: string, items: seq<Raw>, env: Env)
    requires |items| > 0
    ensures items[0].Str? && (forall i :: 0 <= i < |items| ==> items[i].Str?) ==>
      Coerce(key, InterfaceSlice(items), env) == Ok(SliceStringLit(seq(|items|, i requires 0 <= i < |items| => items[i].s)))
    ensures items[0].Float64? && (forall i :: 0 <= i < |items| ==> items[i].Float64?) ==>
      Coerce(key, InterfaceSlice(items), env) == Ok(SliceNumberLit(seq(|items|, i requires 0 <= i < |items| => items[i].x)))
    ensures items[0].JsonNumber? && (forall i :: 0 <= i < |items| ==> items[i].JsonNumber?) ==>
      Coerce(key, InterfaceSlice(items), env)
      == Ok(SliceNumberLit(seq(|items|, i requires 0 <= i < |items| => env.parseFloat(items[i].text).GetOr(0.0))))
    ensures !items[0].Str? && !items[0].Float64? && !items[0].JsonNumber? ==>
      Coerce(key, InterfaceSlice(items), env) == Err(UnsupportedType(key, SliceKind))
    ensures PanicsOnCoercion(InterfaceSlice(items)) ==> Coerce(key, InterfaceSlice(items), env) == Err(Panic(TypeAssertion))
  {
    if items[0].Str? && (forall i :: 0 <= i < |items| ==> items[i].Str?) {
      var r := AssertAll(items, AsString);
      assert r.Some? && r.value == seq(|items|, i requires 0 <= i < |items| => items[i].s);
    }
    if items[0].Float64? && (forall i :: 0 <= i < |items| ==> items[i].Float64?) {
      var r := AssertAll(items, AsFloat64);
      assert r.Some? && r.value == seq(|items|, i requires 0 <= i < |items| => items[i].x);
    }
    if items[0].JsonNumber? && (forall i :: 0 <= i < |items| ==> items[i].JsonNumber?) {
      var r := AssertAll(items, AsJsonNumber(env));
      assert r.Some? && r.value == seq(|items|, i requires 0 <= i < |items| => env.parseFloat(items[i].text).GetOr(0.0));
    }
    if PanicsOnCoercion(InterfaceSlice(items)) {
      var i :| 0 <= i < |items| && !SameElementType(items[0], items[i]);
      if items[0].Str? {
        assert AsString(items[i]).None?;
      } else if items[0].Float64? {
        assert AsFloat64(items[i]).None?;
      } else {
        assert AsJsonNumber(env)(items[i]).None?;
      }
    }
  }

  /** Coercion crashes exactly on the values `PanicsOnCoercion` names. */
  lemma {:induction false} CoercePanicsExactly(key: string, raw: Raw, env: Env)
    ensures Coerce(key, raw, env) == Err(Panic(TypeAssertion)) <==> PanicsOnCoercion(raw)
    ensures Coerce(key, raw, env).Err? && Coerce(key, raw, env).error.Panic? ==> PanicsOnCoercion(raw)
  {
    if raw.InterfaceSlice? && |raw.items| > 0 {
      var items := raw.items;
      CoerceInterfaceSliceByFirstElement(key, items, env);
      if !PanicsOnCoercion(raw) && (items[0].Str? || items[0].Float64? || items[0].JsonNumber?) {
        assert forall i :: 0 <= i < |items| ==> SameElementType(items[0], items[i]);
        if items[0].Str? {
          assert AssertAll(items, AsString).Some?;
        } else if items[0].Float64? {
          assert AssertAll(items, AsFloat64).Some?;
        } else {
          assert AssertAll(items, AsJsonNumber(env)).Some?;
        }
      }
    }
  }

  /**
   * The unsupported-type and unsupported-structure errors carry the kind
   * the value was observed to have, and arise only for non-nil values.
   */
  lemma CoerceReportsObservedKind(key: string, raw: Raw, env: Env, k: Kind)
    ensures Coerce(key, raw, env) == Err(UnsupportedType(key, k)) ==> !raw.Nil? && k == KindOf(raw)
    ensures Coerce(key, raw, env) == Err(UnsupportedStructure(key, k)) ==> !raw.Nil? && k == KindOf(raw)
    ensures Coerce(key, raw, env).Err? && Coerce(key, raw, env).error.UnsupportedJsonNumber? ==>
      raw.JsonNumber? && Coerce(key, raw, env).error == UnsupportedJsonNumber(raw.text, StringKind)
  {
  }
}
