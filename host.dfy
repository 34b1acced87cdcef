/**
 * The values a host application supplies as arguments. Go inspects them
 * with `reflect`; here they form a closed datatype, one constructor per
 * dynamic type the evaluator distinguishes.
 */
module Host {
  import opened Collection

  /** The reflect kinds the evaluator switches on, and every other kind by name. */
  datatype Kind =
    | IntKind | Int32Kind | Int64Kind | Float32Kind | Float64Kind
    | StringKind | BoolKind | SliceKind | StructKind | PtrKind
    | OtherKind(name: string)

  /**
   * A host value. `Other(kind)` is a value of any type not listed here
   * whose reflect kind is `kind`: an `int8`, a `uint`, a map, a `[]bool`,
   * an unrelated struct, or a named type such as `type Age int`.
   * `NilNumberCollectionPtr` is a nil `*MapNumberCollection`: its type,
   * and so its kind, is known although it points nowhere.
   */
  datatype Raw =
    | Nil
    | Int(i: int)
    | Int32(i: int)
    | Int64(i: int)
    | Float32(x: real)
    | Float64(x: real)
    | JsonNumber(text: string)
    | Str(s: string)
    | Bool(b: bool)
    | IntSlice(ints: seq<int>)
    | Int32Slice(ints: seq<int>)
    | Int64Slice(ints: seq<int>)
    | Float32Slice(xs: seq<real>)
    | Float64Slice(xs: seq<real>)
    | JsonNumberSlice(texts: seq<string>)
    | StringSlice(strs: seq<string>)
    | InterfaceSlice(items: seq<Raw>)
    | NumberCollection(nc: MapNumberCollection)
    | NilNumberCollectionPtr
    | StringCollection(sc: MapStringCollection)
    | Other(kind: Kind)

  /** The reflect kind of a host value, as the diagnostics report it. */
  function KindOf(raw: Raw): (k: Kind)
    requires !raw.Nil?
    ensures raw.Other? ==> k == raw.kind
    ensures raw.JsonNumber? || raw.Str? ==> k == StringKind
    ensures raw.NilNumberCollectionPtr? ==> k == PtrKind
    ensures k == SliceKind <==>
      || raw.IntSlice? || raw.Int32Slice? || raw.Int64Slice? || raw.Float32Slice?
      || raw.Float64Slice? || raw.JsonNumberSlice? || raw.StringSlice? || raw.InterfaceSlice?
      || (raw.Other? && raw.kind == SliceKind)
  {
    match raw
    case Int(_) => IntKind
    case Int32(_) => Int32Kind
    case Int64(_) => Int64Kind
    case Float32(_) => Float32Kind
    case Float64(_) => Float64Kind
    case JsonNumber(_) => StringKind
    case Str(_) => StringKind
    case Bool(_) => BoolKind
    case NumberCollection(_) => StructKind
    case NilNumberCollectionPtr => PtrKind
    case StringCollection(_) => StructKind
    case Other(k) => k
    case _ => SliceKind
  }
}
