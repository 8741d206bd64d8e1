/** Optional values and results. `Error` names the Python exception kinds the
    modelled code can raise; only `ParsingError` is ever caught by the code itself. */
module Outcome {

  datatype Option<+T> = None | Some(value: T)

  datatype Error =
    | ValueError      // bad ip_version, bad int(), bad community string
    | IndexError      // list index out of range (token lookups)
    | ParsingError    // neighbour address missing or not an IP address
    | AttributeError  // a method called on None (no dump, no peer)

  datatype Result<+T> = Ok(value: T) | Err(error: Error) {

    predicate IsFailure() {
      Err?
    }

    function PropagateFailure<U>(): Result<U>
      requires Err?
    {
      Err(error)
    }

    function Extract(): T
      requires Ok?
    {
      value
    }
  }
}
