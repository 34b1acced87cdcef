/** Key to value lookup of host arguments (arg_resolver.go). */
module ArgResolver {
  import opened Wrappers
  import opened Host

  datatype ResolveError = KeyNotFound(key: string)

  /** A resolver backed by a map; read-only for the evaluator. */
  datatype MapArgResolver = MapArgResolver(args: map<string, Raw>) {

    /** The stored value when the key is present, even a nil one; an error otherwise. */
    function Resolve(key: string): (r: Result<Raw, ResolveError>)
      ensures r.Ok? <==> key in args
      ensures r.Ok? ==> r.value == args[key]
      ensures r.Err? ==> r.error == KeyNotFound(key)
    {
      if key in args then Ok(args[key]) else Err(KeyNotFound(key))
    }
  }

  /** Keeps the map as given (arg_resolver.go:13-15). */
  function NewMapArgResolver(args: map<string, Raw>): (r: MapArgResolver)
    ensures r.args == args
  {
    MapArgResolver(args)
  }

  /** Resolving through a fresh resolver agrees with the map's own lookup. */
  lemma ResolveAgreesWithMap(args: map<string, Raw>, key: string)
    ensures NewMapArgResolver(args).Resolve(key)
         == if key in args then Ok(args[key]) else Err(KeyNotFound(key))
  {
  }

  /** A key mapped to nil counts as present: nil comes back without an error. */
  lemma NilIsPresent(args: map<string, Raw>, key: string)
    requires key in args && args[key] == Nil
    ensures NewMapArgResolver(args).Resolve(key) == Ok(Nil)
  {
  }
}
