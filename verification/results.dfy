/** Explicit outcomes for the solver's operations. Where the Python code raises
    an exception (or, for the equilibrium search, would silently return a wrong
    iterate) the model returns an `Err` that names the failure. */
module Results {

  /** The ways an operation of the solver can fail. */
  datatype Error =
    | DivisionByZero   // Python's ZeroDivisionError: a zero time step or a zero denominator
    | ShortDerivative  // Python's IndexError: a derivative has fewer components than the state
    | NoUniqueRoot     // the equilibrium residual has no unique root

  /** A value or the error that prevented computing it; usable with `:-`. */
  datatype Result<+T> = Ok(value: T) | Err(error: Error) {

    predicate IsFailure() {
      Err?
    }

    function PropagateFailure<U>(): Result<U>
      requires Err?
    {
      Err(error)
    }

    function Extract(): T
      requires Ok?
    {
      value
    }
  }

  /** A value that may be undefined, such as a relative error against zero. */
  datatype Option<+T> = None | Some(value: T)
}
