/** Failure-carrying datatypes, and the Python exceptions the modelled code
    can raise on the paths it does not guard. */
module Wrappers {

  datatype Option<+T> = None | Some(value: T)

  datatype Result<+T, +E> = Success(value: T) | Failure(error: E) {

    predicate IsFailure() {
      Failure?
    }

    function PropagateFailure<U>(): Result<U, E>
      requires Failure?
    {
      Failure(error)
    }

    function Extract(): T
      requires Success?
    {
      value
    }
  }

  /** The exceptions the code lets escape: a missing dictionary key, a list
      index past the end, subscripting or hashing a value of the wrong type,
      and calling a string method on something that is not a string. */
  datatype PyError = KeyError | IndexError | TypeError | AttributeError
}
