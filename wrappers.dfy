/** Failure-carrying results shared by the whole model, and the error kinds the engine raises. */
module Wrappers {

  /** The kinds of error the engine surfaces; message texts are not modelled. */
  datatype Error =
    | InvalidArgument     // a command was constructed from a value that is not an object
    | UnknownEntityType   // the definition repository holds no definition for the object's class
    | UntrackedEntity     // remove() of an object that was never registered

  datatype Option<+T> = None | Some(value: T)

  datatype Result<+T> = Ok(value: T) | Err(error: Error)

  /** The outcome of an operation that returns nothing but may fail. */
  datatype Outcome = Pass | Fail(error: Error)
}
