# Condition evaluator, modelled in Dafny

This project models the evaluator of a small boolean condition language
(`conditions`, written in Go). A parser, which is not modelled here, builds an expression tree. The
evaluator reduces that tree against a set of named host arguments to one
boolean. The model covers:

- the expression tree and its literal nodes (`ast.dfy`);
- the host values an argument can hold, as a closed datatype in place of
  Go's `reflect` kinds (`host.dfy`);
- the map-backed argument resolver (`arg_resolver.dfy`);
- the map-backed number set and the host's string set (`collection.dfy`);
- the coercion of a resolved argument into a literal (`coercion.dfy`);
- the sixteen operators and their dispatcher (`operators.dfy`), the laws
  relating them (`operator_laws.dfy`), and the tolerant number comparison
  (`numeric.dfy`);
- the tree walk and its entry points (`evaluator.dfy`);
- EQ and NEQ as the source writes them, over heap nodes, for the finding
  below (`sentinel.dfy`).

Numbers are `real`. The tolerance is passed in `Environment.Env` together
with the two library routines the evaluator calls: `json.Number.Float64`
becomes `parseFloat` and `regexp.MatchString` becomes `matchString`.

In Go, some inputs crash the evaluator: a failed type assertion, or NEREG
dereferencing EREG's nil result, or IN and CONTAINS reading a nil
`*MapNumberCollection` argument. The model returns a distinct
`Error.Panic(cause)` outcome for these, so evaluation stays a total
function. `Evaluator.PanicsOnlyFromHazards` and
`Coercion.CoercePanicsExactly` state which of the modelled inputs lead
there.

Behaviours of the code worth noting:
- the near-zero bound uses `math.SmallestNonzeroFloat32` (2^-149), not the
  smallest normal float32;
- only `int`, `int32`, `int64`, `float32` and `float64` become numbers;
  `int8`, `uint` and other widths are unsupported;
- a set and a slice with the same numbers can answer IN differently,
  because the set compares exactly and the slice with tolerance
  (`OperatorLaws.InNumberRepresentationsDiffer`);
- a mixed `[]interface{}` led by a string, float64 or JSON number crashes instead of being rejected.

## Model

| member | source | states |
|---|---|---|
| `Collection.NewMapNumberCollection` | collection.go:14-16 | the collection wraps the given map unchanged, so membership is exactly its key set |
| `Collection.MapNumberCollection.Has` | collection.go:28-32 | a number is a member exactly when it is a key of the map, whatever flag is stored under it (see `HasIgnoresStoredFlag`) |
| `Collection.NewMapNumberCollectionFromList` | collection.go:18-26 | after the fill loop, a number is a member exactly when it occurs in the list, every stored flag is true, and the result is the list's collection |
| `Collection.ListCollectionMembers` | collection.go:18-26 | a list-built collection holds exactly the list's elements, each flagged true |
| `Collection.ListCollectionIgnoresOrderAndDuplicates` | collection.go:19-25 | two lists with the same elements, in any order and with any repeats, build the same collection |
| `Collection.EmptyListHoldsNothing` | collection.go:19-25 | an empty list gives a collection for which `Has` is always false |
| `Collection.HasIgnoresStoredFlag` | collection.go:28-32 | a key stored with a false flag is still a member: `Has` tests presence only |
| `Collection.HasIsExact` | collection.go:28-32 | `Has` compares keys exactly; a number 1e-7 away is not a member |
| `ArgResolver.MapArgResolver.Resolve` | arg_resolver.go:17-25 | a present key gives its stored value with no error; an absent key gives a not-found error naming the key |
| `ArgResolver.NewMapArgResolver` | arg_resolver.go:13-15 | the resolver keeps the map as given |
| `ArgResolver.ResolveAgreesWithMap` | arg_resolver.go:13-25 | resolving through a new resolver agrees with the map's own lookup, for every key |
| `ArgResolver.NilIsPresent` | arg_resolver.go:17-22 | a key mapped to nil counts as present, and nil comes back without an error |
| `Host.KindOf` | evaluator.go:84-85 | the reflect kind of a value: every slice type reports the slice kind, a JSON number the string kind, a nil number-collection pointer the pointer kind, and a value of an unlisted type its own kind |
| `Numeric.Float64Equal` | evaluator.go:629-645 | equal numbers are equal; numbers further apart than epsilon are not; against zero, the difference must be below epsilon times 2^-149 |
| `Numeric.Float64EqualReflexive` | evaluator.go:635-637 | every number is tolerantly equal to itself |
| `Numeric.Float64EqualSymmetric` | evaluator.go:629-645 | the comparison does not depend on the order of its operands |
| `Numeric.Float64EqualRelative` | evaluator.go:638-644 | away from zero and below the overflow cap: equal iff the difference is at most epsilon and below epsilon times the sum of magnitudes |
| `Numeric.Float64EqualNearZero` | evaluator.go:641-643 | for epsilon at most 1, only a number below 2^-149 in magnitude is equal to zero |
| `Numeric.Float64EqualExamples` | evaluator.go:629-645 | at tolerance 1e-6, 1.0000001 equals 1.0000002 and 1.0 does not equal 1.1 |
| `Operators.ApplyAND` | evaluator.go:433-447 | succeeds exactly on two booleans and gives their conjunction; otherwise a not-a-boolean error |
| `Operators.ApplyOR` | evaluator.go:450-464 | succeeds exactly on two booleans and gives their disjunction; otherwise a not-a-boolean error |
| `Operators.ApplyXOR` | evaluator.go:399-413 | succeeds exactly on two booleans and gives whether they differ; otherwise a not-a-boolean error |
| `Operators.ApplyNAND` | evaluator.go:416-430 | succeeds exactly on two booleans and gives the negated conjunction; otherwise a not-a-boolean error |
| `Operators.ApplyEQ` | evaluator.go:467-499 | keyed on the left operand, tried as string, then number (tolerant), then boolean; a mismatched right operand is an error; any other left operand gives false with no error |
| `Operators.ApplyNEQ` | evaluator.go:502-509 | fails exactly when EQ fails, with EQ's error, and otherwise is EQ's negation, as a fresh value |
| `Operators.ApplyGT` | evaluator.go:512-526 | succeeds exactly on two numbers and gives strict greater-than; otherwise a not-a-number error |
| `Operators.ApplyGTE` | evaluator.go:529-543 | succeeds exactly on two numbers; true whenever the left is at least the right, and true only if it is at least the right or within epsilon |
| `Operators.ApplyLT` | evaluator.go:546-560 | succeeds exactly on two numbers and gives strict less-than; otherwise a not-a-number error |
| `Operators.ApplyLTE` | evaluator.go:563-577 | succeeds exactly on two numbers; true whenever the left is at most the right, and true only if it is at most the right or within epsilon |
| `Operators.ScanSliceNumber` | evaluator.go:368-375 | the scan with early exit returns `SliceHasNumber`: a match exactly when some slice element is tolerantly equal to the number |
| `Operators.ApplyIN` | evaluator.go:319-381 | a string is looked up in a string set or string slice, a number in a number set (exactly) or number slice (tolerantly); a nil number-set pointer crashes, and only it can; a wrong container is an error, and so is a left operand that is neither string nor number |
| `Operators.ApplyNOTIN` | evaluator.go:309-316 | fails exactly when IN fails, with IN's error, and otherwise is IN's negation |
| `Operators.ApplyCONTAINS` | evaluator.go:384-386 | a set on the left contains the right-hand string or number when it is a member (exactly), a slice when some element matches (numbers with tolerance); a nil number-set pointer on the left crashes against a number; a right operand that is neither string nor number is an error |
| `Operators.ApplyNOTCONTAINS` | evaluator.go:389-396 | fails exactly when CONTAINS fails, with its error, and otherwise is its negation |
| `Operators.ApplyEREG` | evaluator.go:285-306 | succeeds exactly when both operands are strings and the pattern (right) is well formed, giving whether it matches the subject (left); a malformed pattern is an error naming it |
| `Operators.ApplyNEREG` | evaluator.go:278-282 | succeeds exactly when EREG does and negates it; a non-string operand crashes (nil dereference); a malformed pattern stays an error |
| `Operators.ApplyOperator` | evaluator.go:239-275 | a token naming no operator is an unsupported-operator error, and only such a token gives that error; a crash comes only from NEREG, or from IN, NOTIN, CONTAINS or NOTCONTAINS between a number and a nil number-set pointer |
| `Operators.GetBoolean` | evaluator.go:580-587 | succeeds exactly on a boolean literal, with its value; otherwise a not-a-boolean error |
| `Operators.GetNumber` | evaluator.go:620-627 | succeeds exactly on a number literal, with its value; otherwise a not-a-number error |
| `Operators.GetString` | evaluator.go:590-597 | succeeds exactly on a string literal, with its value; otherwise a not-a-string error |
| `Operators.GetSliceNumber` | evaluator.go:600-607 | succeeds exactly on a number slice literal, with its elements in order; otherwise a not-a-number-slice error |
| `Operators.GetMapString` | evaluator.go:610-617 | succeeds exactly on a string slice literal, with a membership set holding exactly its elements; otherwise a not-a-string-slice error |
| `OperatorLaws.LogicalTruthTables` | evaluator.go:399-464 | AND, OR, XOR and NAND on all four boolean combinations |
| `OperatorLaws.LogicalOperatorsAgree` | evaluator.go:399-464 | NAND is AND negated and XOR is OR-and-NAND for all operands, with the same error when any fails |
| `OperatorLaws.NegatedPairs` | evaluator.go:278-316 | NEQ, NOTIN and NOTCONTAINS negate EQ, IN and CONTAINS on success and repeat their error otherwise; NEREG negates a successful EREG |
| `OperatorLaws.ContainsIsSwappedIn` | evaluator.go:384-396 | CONTAINS(l, r) is IN(r, l) and NOTCONTAINS(l, r) is NOTIN(r, l), for all operands |
| `OperatorLaws.EqReflexive` | evaluator.go:467-497 | a string, number or boolean is EQ to itself and not NEQ to itself |
| `OperatorLaws.EqSymmetricOnSameKind` | evaluator.go:467-497 | between two strings, two numbers or two booleans, EQ does not depend on operand order |
| `OperatorLaws.EqFallsBackToFalse` | evaluator.go:498 | a left operand of another kind makes EQ false with no error, even against itself, and NEQ true |
| `OperatorLaws.EqAsymmetricAcrossKinds` | evaluator.go:482-498 | a slice EQ a number is false, while the number EQ the slice is an error |
| `OperatorLaws.OrderingIsSwapped` | evaluator.go:512-577 | GT(l, r) is LT(r, l) and GTE(l, r) is LTE(r, l), errors included |
| `OperatorLaws.InclusiveOrderingIsStrictOrEqual` | evaluator.go:529-577 | on numbers, GTE is GT or EQ and LTE is LT or EQ; GT and LT are strict |
| `OperatorLaws.ComparisonExamples` | evaluator.go:467-543 | at tolerance 1e-6, EQ(1.0000001, 1.0000002) is true, EQ(1.0, 1.1) false and GTE(5.0000001, 5.0) true |
| `OperatorLaws.InEmptySliceIsFalse` | evaluator.go:342-375 | IN against an empty number or string slice is false |
| `OperatorLaws.InStringRepresentationIndependent` | evaluator.go:335-346 | for strings, a set and a slice with the same elements give the same IN result |
| `OperatorLaws.InNumberSetImpliesSlice` | evaluator.go:355-375 | a number in a list-built set is also IN the slice of that list |
| `OperatorLaws.InNumberRepresentationsDiffer` | evaluator.go:355-375 | the converse fails: 1.0000001 is not in the set {1.0000002} but is IN the slice [1.0000002] |
| `Coercion.AppendWidened` | evaluator.go:113-149 | the append loop yields exactly `Widened`: the same length, each element the widened input element in order |
| `Coercion.CollectAsserted` | evaluator.go:156-174 | the assert-and-append loop yields exactly `AssertAll`: it succeeds exactly when every element passes the type assertion, with the asserted values in order |
| `Coercion.CoerceInterfaceSlice` | evaluator.go:150-176 | a `[]interface{}` coerces only to a string slice or a number slice, and its unsupported-type error carries the slice kind |
| `Coercion.TryCreateNumberCollectionLiteral` | evaluator.go:206-220 | succeeds exactly on a number collection, by value or by pointer; a nil pointer passes and gives a literal pointing nowhere |
| `Coercion.TryCreateStringCollectionLiteral` | evaluator.go:222-236 | succeeds exactly on a string collection, which it passes through unchanged |
| `Coercion.CreateCollectionLiteral` | evaluator.go:190-236 | a struct or pointer argument succeeds exactly when it is a number set (possibly a nil pointer) or a string set, passed through unchanged; otherwise an unsupported-structure error with the key and kind |
| `Coercion.Coerce` | evaluator.go:80-184 | a successful coercion always yields a literal node |
| `Coercion.CoerceNumbers` | evaluator.go:87-96 | int, int32, int64, float32 and float64 become numbers of the same value |
| `Coercion.CoerceJsonNumber` | evaluator.go:97-104 | a JSON number becomes its parsed value, or, when it does not parse, an error carrying its text and the string kind |
| `Coercion.CoerceStringsAndBools` | evaluator.go:105-107 | a plain string stays a string with no numeric parsing; a bool becomes a boolean |
| `Coercion.CoerceRejects` | evaluator.go:80-184 | nil is an error carrying nothing else; an empty `[]interface{}` and unlisted kinds are errors naming the key and kind; unrelated structs and pointers are unsupported-structure errors |
| `Coercion.CoerceCollections` | evaluator.go:178-216 | host number and string sets pass through unchanged, and a nil number-set pointer is accepted as a literal pointing nowhere |
| `Coercion.CoerceTypedSlices` | evaluator.go:110-149 | `[]int`, `[]int32`, `[]int64`, `[]float32`, `[]float64`, `[]json.Number` and `[]string` keep length and order, each element widened, parsed (a failed parse giving zero) or kept as a string |
| `Coercion.JsonParseErrorIgnoredInSlices` | evaluator.go:143-149 | a JSON number that does not parse is an error on its own, while inside a `[]json.Number` or a `[]interface{}` the parse error is dropped and zero appended |
| `Coercion.CoerceInterfaceSliceByFirstElement` | evaluator.go:150-176 | the first element decides: all strings give a string slice, all float64s a number slice, all JSON numbers a number slice of their parsed values, another first type an error, a mixed slice a crash |
| `Coercion.CoercePanicsExactly` | evaluator.go:87-176 | coercion crashes exactly on named scalar types and on mixed `[]interface{}` values led by a string, float64 or JSON number |
| `Coercion.CoerceReportsObservedKind` | evaluator.go:84-203 | the unsupported-type and unsupported-structure errors carry the kind the non-nil value was observed to have; a JSON-number error carries the text and the string kind |
| `Evaluator.EvaluateSubtree` | evaluator.go:44-188 | a successful reduction is always a literal; a binary node, through any grouping, reduces to a boolean; a literal reduces to itself |
| `Evaluator.EvaluateWithArgResolver` | evaluator.go:27-41 | a nil root is an error; the result is the root's boolean when it reduces to one, an invalid-root error when it reduces to anything else, and the reduction's error otherwise |
| `Evaluator.Evaluate` | evaluator.go:22-24 | against an argument map, the result is exactly that of evaluating with a map resolver over it: a nil root is an error; a success is the boolean the tree reduces to; a binary root succeeds exactly when its reduction does; a non-boolean literal root is an invalid-root error |
| `Evaluator.NilRootIsError` | evaluator.go:28-30 | a nil root is an error whatever the resolver holds |
| `Evaluator.VarRefResolution` | evaluator.go:67-83 | a missing key is a not-resolved error; a present key is its coerced value; a nil value is an error |
| `Evaluator.WrapIsTransparent` | evaluator.go:55-56 | any number of grouping nodes around an expression leave its evaluation unchanged |
| `Evaluator.StripParensPreservesEvaluation` | evaluator.go:55-56 | removing every grouping node in a tree leaves its evaluation unchanged |
| `Evaluator.BinaryEvaluation` | evaluator.go:57-66 | a left error is returned before the right side is considered; a right error is returned next; when both sides reduce, the node's result is exactly the operator's, its boolean on success and its error unchanged on failure |
| `Evaluator.NoShortCircuit` | evaluator.go:57-66 | AND with a false left side and OR with a true left side still return the right side's error |
| `Evaluator.DependsOnlyOnReferencedKeys` | evaluator.go:67-78 | two resolvers that agree on the keys a tree mentions evaluate it identically |
| `Evaluator.PanicsOnlyFromHazards` | evaluator.go:44-188 | without a NEREG node, a crashing argument or a nil number-set pointer, every failure is an ordinary error, and no reduction yields a nil number-set literal |
| `Evaluator.NilCollectionPointerCrashes` | evaluator.go:355-359 | a nil `*MapNumberCollection` argument is accepted, and IN or CONTAINS against it crashes, while GT sees a non-number |
| `Evaluator.AgeExample` | evaluator.go:67-107 | `age > 18` is true for the integer 25, a not-a-number error for the string "25", a not-resolved error for a missing key |
| `Evaluator.RootResultExamples` | evaluator.go:36-40 | a number or string root is an invalid-root error; a grouped boolean root gives its value |
| `Sentinel.ApplyEQAsWritten` | evaluator.go:467-499 | EQ over heap nodes: a comparison returns a fresh node; the fallback and the error paths return the shared false node |
| `Sentinel.ApplyNEQAsWritten` | evaluator.go:502-509 | NEQ over heap nodes negates EQ's node in place, so a fallback operand flips the shared node |
| `Sentinel.NeqThenEqAsWritten` | evaluator.go:498-507 | after `xs != 1` on a number slice, `xs == 1` reports true, where the fallback should give false |
| `Sentinel.TwiceNeqAndAsWritten` | evaluator.go:57-66 | `(xs != 1) AND (xs != 1)` yields false as written, while the model evaluates it to true |

## Findings

| source | as written | input that shows it | evidently intended | confidence | as-written member | corrected member |
|---|---|---|---|---|---|---|
| evaluator.go:498-507 | EQ's fallback returns the package-level `falseExpr` node, and NEQ negates the node it gets in place, so the shared node is overwritten | xs = `[]float64{1}`: `xs != 1` then `xs == 1` gives true for both; `(xs != 1) AND (xs != 1)` gives false | NEQ returns a fresh negated value, and EQ's fallback is always false | high, not executed | `Sentinel.NeqThenEqAsWritten` | `Operators.ApplyNEQ` |

## Left out

- Go's `reflect` dispatch is not modelled. `Host.Raw` lists the dynamic types the evaluator distinguishes. `Other(kind)` covers every other type, including named types such as `type Age int`.
- IEEE-754 behaviour is not modelled: rounding, NaN, infinities, negative zero, and precision lost when an `int64` or `float32` is widened. Integer widths are unbounded.
- Coercion.JsonParseErrorIgnoredInSlices: inside a `[]json.Number` or `[]interface{}`, the model appends zero for every parse failure. For out-of-range text such as "1e400", `ParseFloat` returns ±Inf with its error, and the source appends that infinity (evaluator.go:146, 171), which a `real` cannot represent.
- A nil `*MapStringCollection` argument is not modelled: `MapStringCollection` is not part of this model, and a string set is always present here.
- `json.Number.Float64` (strconv) and `regexp.MatchString` are library code and are not part of this model. They are the parameters `parseFloat` and `matchString`, so only how the evaluator uses their results is verified.
- The process-wide tolerance and `SetDefaultEpsilon` are not modelled. The tolerance is read from `Env` at call time, and concurrent writers are not modelled.
- Host-defined `ArgResolver` implementations other than the map-backed one are not modelled.
- `MapStringCollection` and `SliceStringLiteral` are not part of this model. A string set is its set of keys, and a string slice's membership map is the set of its elements.
- The parser, lexer and `Token` enum are not part of this model. Every non-operator token is `NonOperator(name)`.
- The `String()` debug renderings (collection.go:34-44, ast_literals.go:11-13) are left out. They depend on map iteration order and `%f` formatting.
- Error messages are reduced to error kinds plus the key, kind, text, token or pattern the source's message carries; the text of a resolver's error is dropped.
- The check at evaluator.go:70-72 is dead code, because `err` is always nil there.
- Collection.NewMapNumberCollectionFromList: takes a sequence of numbers. A non-float64 element, which panics in the source (collection.go:22), is excluded by the parameter type.
- The sharing of `falseExpr` between results is modelled only in `sentinel.dfy`. The evaluator returns fresh values, as the Findings row explains.
