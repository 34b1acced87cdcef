/** The ways an evaluation fails. */
module Errors {
  import opened Host
  import opened Ast

  /** Why the Go code would crash instead of returning an error. */
  datatype PanicCause =
    | TypeAssertion    // `arg.(T)` on a value of another type
    | NilDereference   // `result.Val` on a nil result

  datatype Error =
    | NilExpression
    | KeyNotResolved(key: string)
    | UnsupportedNil
    | UnsupportedJsonNumber(text: string, kind: Kind)
    | UnsupportedType(key: string, kind: Kind)
    | UnsupportedStructure(key: string, kind: Kind)
    | NotBoolean
    | NotNumber
    | NotString
    | NotSliceNumber
    | NotSliceString
    | UnknownLiteral
    | UnsupportedOperator(op: Token)
    | InvalidPattern(pattern: string)
    | InvalidRootResult
    | Panic(cause: PanicCause)
}
