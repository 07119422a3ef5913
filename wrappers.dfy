/** Option and Result types shared by the modules of this model. */
module Wrappers {

  datatype Option<+T> = None | Some(value: T)

  /** The Python exceptions that the modelled code lets escape to its caller. */
  datatype Error =
    | KeyError        // a missing dictionary key or archive member
    | AttributeError  // an attribute read before it was ever assigned
    | ValueError      // an empty separator, or too few values to unpack
    | IndexError      // a list index out of range

  datatype Result<+T> = Ok(value: T) | Err(error: Error)

  /** The outcome of an operation that returns nothing on success. */
  datatype Outcome = Pass | Fail(error: Error)
}
