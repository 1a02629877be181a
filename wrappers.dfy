/** Failure-compatible wrappers shared by the other modules. */
module Wrappers {

  datatype Option<+T> = None | Some(value: T)

  /** A computation that either yields a value or fails with an error,
      as a rejected promise or a thrown exception does in the konnector. */
  datatype Result<+R, +E> = Success(value: R) | Failure(error: E) {
    predicate IsFailure() {
      Failure?
    }

    function PropagateFailure<U>(): Result<U, E>
      requires Failure?
    {
      Failure(error)
    }

    function Extract(): R
      requires Success?
    {
      value
    }
  }

  /** Like Result, for computations that yield no value. */
  datatype Outcome<+E> = Pass | Fail(error: E)
}

/** The ways a run of the konnector can stop early. */
module Errors {
  datatype Error =
    /** A property read on `undefined`, which JavaScript raises as a TypeError. */
    | TypeError(message: string)
    /** `errors.VENDOR_DOWN`: the login response is not JSON. */
    | VendorDown
    /** `errors.LOGIN_FAILED`: the login response does not report success. */
    | LoginFailed
}
