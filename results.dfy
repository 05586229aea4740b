/** The failure values of the ledger: the exceptions the Java service throws,
    turned into values that its operations return. */
module Results {

  /** A nullable reference (a Java `Long` id that may be null). */
  datatype Option<+T> = None | Some(value: T)

  /** The exceptions that can escape the service.
      - NotEnoughMoney: thrown by `Account.debit` when the new balance would be negative.
      - NoSuchElement: thrown by `Optional.orElseThrow()` when a lookup by id finds nothing.
      - EmptyResult: thrown by the account repository's `deleteById` for an absent id. */
  datatype Error = NotEnoughMoney | NoSuchElement | EmptyResult

  /** The outcome of a `void` operation: it returned normally, or it threw. */
  datatype Outcome = Pass | Fail(error: Error)

  /** The outcome of an operation that returns a value or throws. */
  datatype Result<+T> = Ok(value: T) | Err(error: Error) {
    function GetOr(default: T): T {
      match this
      case Ok(v) => v
      case Err(_) => default
    }

    /** The same success or failure, forgetting the value. */
    function ToOutcome(): Outcome {
      match this
      case Ok(_) => Pass
      case Err(e) => Fail(e)
    }
  }
}
