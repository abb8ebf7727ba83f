/** Optional values and results with the error conditions the simulator
    raises: a failed shape assertion or reshape, a singular matrix handed to
    an inverse, an external solver that returns nothing, a zero DC gain, and
    reading an attribute a plant never sets. */
module Wrappers {

  datatype Option<T> = None | Some(value: T)

  datatype Error =
    | DimensionError
    | SingularMatrix
    | SolverFailed
    | ZeroDcGain
    | MissingAttribute

  datatype Result<T> = Ok(value: T) | Err(error: Error) {
    predicate IsFailure() {
      Err?
    }

    function PropagateFailure<U>(): Result<U>
      requires Err?
    {
      Err(error)
    }

    function Extract(): T
      requires Ok?
    {
      value
    }
  }
}
