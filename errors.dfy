/** Error kinds raised by the Box revisions, and the result types that carry them.
    Each exception the source throws becomes a `Fail` or `Failure` carrying its kind;
    the message text is not modelled. */
module Errors {

  /** The kinds named by the `Errors` namespace of the source. `InvalidDimensions` is
      `Errors::Dimensions::INVALID`, thrown by `validateDimensions`. */
  datatype Error =
    | InvalidSymbol
    | UnknownValue
    | UninitializedUsage
    | WrongInitialization
    | AlreadyOpened
    | AlreadyClosed
    | ItemTooHighToClose
    | PutingToClosed
    | PutingToFull
    | ItemDoesNotFit
    | TakingFromClosed
    | TakingFromEmpty
    | InvalidDimensions

  datatype Option<+T> = None | Some(value: T) {
    function GetOr(default: T): T {
      if Some? then value else default
    }
  }

  /** The outcome of an operation that returns a value or throws. */
  datatype Result<+T> = Ok(value: T) | Fail(error: Error) {
    predicate IsFailure() {
      Fail?
    }

    function PropagateFailure<U>(): Result<U>
      requires Fail?
    {
      Fail(error)
    }

    function Extract(): T
      requires Ok?
    {
      value
    }
  }

  /** The outcome of a `void` operation that may throw. */
  datatype Status = Success | Failure(error: Error)
}
