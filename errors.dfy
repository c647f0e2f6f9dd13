/** Failure-carrying results and the exceptions the modelled code raises. */
module Errors {

  datatype Option<+T> = None | Some(value: T)

  datatype Result<+T> = Ok(value: T) | Err(error: Error)

  datatype Outcome = Pass | Fail(error: Error)

  /** One constructor per exception the modelled Python code can raise. */
  datatype Error =
    | NotHermitian            // ValueError('Physical observables must be Hermitian')
    | NotMatrix               // ValueError('Hermiticity check requires matrix')
    | HamiltonianNotHermitian // ValueError('Hamiltonian is not Hermitian')
    | ReshapeMismatch         // ValueError from ndarray.reshape
    | IndexOutOfRange         // IndexError
    | AssertionFailed         // AssertionError
    | NotImplemented          // NotImplementedError
    | ZeroDivision            // ZeroDivisionError
    | NoBaths                 // TypeError: iterating over a missing bath list
    | InvalidOperator         // AttributeError('Not a valid operator')
    | MissingAttribute        // AttributeError: an attribute that was never set (nbaths without baths)
}
