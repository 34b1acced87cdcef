/**
 * What an evaluation reads besides the tree and the arguments: the numeric
 * tolerance (a package variable in the source, read at call time) and the
 * two library routines the evaluator calls, `json.Number.Float64` and
 * `regexp.MatchString`, whose code is not part of this model.
 */
module Environment {
  import opened Wrappers

  /** The tolerance the package starts with. */
  const DefaultEpsilon: real := 0.000001

  datatype Env = Env(
    epsilon: real,
    /** Parses a JSON number's text; `None` when it does not parse. */
    parseFloat: string -> Option<real>,
    /** `matchString(pattern, subject)`: whether the pattern matches somewhere in the subject; `None` for a malformed pattern. */
    matchString: (string, string) -> Option<bool>
  )
}
