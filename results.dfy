/** Optional values, and the outcome of an operation that may raise one of the
    Python exceptions the parser can run into. */
module Results {

  datatype Option<+T> = None | Some(value: T)

  /** The exceptions the parsing engine raises on malformed input. */
  datatype Error =
    | IndexError                           // a list index out of range
    | ValueError                           // int() applied to text that is not an integer
    | UnpackError(expected: nat, got: nat)  // tuple unpacking of a split with the wrong piece count

  datatype Result<+T> = Ok(value: T) | Err(error: Error)
}
