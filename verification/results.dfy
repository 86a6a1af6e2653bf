/** Failure-carrying values shared by the ledger, the settlement rules and the program. */
module Results {

  /** An optional value; the program's `Option<WinningOutcome>`. */
  datatype Option<+T> = None | Some(value: T)

  /** Either a value or a typed error, as an instruction or a token-program call returns. */
  datatype Result<+T, +E> = Ok(value: T) | Err(error: E)
}
