/** Option and Result, the failure-carrying values the rest of the model
    uses in place of Python's None and raised exceptions. */
module Wrappers {

  datatype Option<+T> = None | Some(value: T) {
    function GetOr(default: T): T {
      match this
      case Some(v) => v
      case None => default
    }
  }

  /** A Python exception, by class name and first argument (`ex.args[0]`). */
  datatype Error = Error(kind: string, message: string)

  /** The outcome of a call that returns nothing: it either completes or raises. */
  datatype Outcome = Pass | Fail(error: Error)

  datatype Result<+R> = Success(value: R) | Failure(error: Error) {
    predicate IsFailure() {
      Failure?
    }

    function PropagateFailure<U>(): Result<U>
      requires Failure?
    {
      Failure(error)
    }

    function Extract(): R
      requires Success?
    {
      value
    }
  }
}
