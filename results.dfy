/** Failure-compatible result types for the tilemap loader.

    The loader reports every schema violation by raising an exception that
    aborts the whole parse; here that is an `Err` carrying the kind of the
    violation and the dotted context label that names the offending field.
 */
module Results {

  datatype Option<+T> = None | Some(value: T)

  /** The kinds of failure the loader raises. The message text of the source
      is reduced to its kind; the context label is kept verbatim. */
  datatype ErrorKind =
    | ExpectedObject         // TypeError "expected object"
    | ExpectedArray          // TypeError "expected array"
    | ExpectedString         // TypeError "expected string"
    | ExpectedInt            // TypeError "expected int"
    | ExpectedFloat          // TypeError "expected float"
    | ExpectedBool           // TypeError "expected bool"
    | ExpectedIntLikeString  // TypeError "expected int-like string"
    | InvalidPoint           // ValueError "invalid point '<text>'"
    | ExpectedPair           // ValueError "expected [x, y]"

  datatype Error = Error(kind: ErrorKind, ctx: string)

  datatype Result<+T> = Ok(value: T) | Err(error: Error) {

    predicate IsFailure() {
      Err?
    }

    function PropagateFailure<U>(): Result<U>
      requires Err?
    {
      Err(error)
    }

    function Extract(): T
      requires Ok?
    {
      value
    }
  }
}
