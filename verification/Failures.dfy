/** The ways the reference calculations and the story runner throw. */
module Failures {
  datatype Error = DivisionByZero | UsageCheck | UnknownUser

  datatype Result<+T> = Success(value: T) | Failure(error: Error) {
    predicate IsFailure() {
      Failure?
    }

    function PropagateFailure<U>(): Result<U>
      requires Failure?
    {
      Failure(error)
    }

    function Extract(): T
      requires Success?
    {
      value
    }
  }
}
