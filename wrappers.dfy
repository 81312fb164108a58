/** Failure-carrying values shared by every module of the scheduler model. */
module Wrappers {

  /** The Python exceptions that the scheduler lets escape. */
  datatype Error =
    | IndexError          // list index out of range
    | KeyError            // unknown shift label in a schedule dictionary
    | ValueError          // `list.remove` of a value that is absent
    | ZeroDivisionError   // a ratio whose denominator is zero
    | UnboundLocalError   // a local variable read before any assignment
    | AttributeError      // an attribute the object never received

  datatype Option<T> = None | Some(value: T)

  datatype Result<T> = Success(value: T) | Failure(error: Error)

  /** The outcome of a step that either completes or raises. */
  datatype Outcome = Pass | Fail(error: Error)
}
