/** Option and Result: Go's nil pointers and its (value, error) returns. */
module Wrappers {

  datatype Option<+T> = None | Some(value: T)

  datatype Result<+T, +E> = Ok(value: T) | Err(error: E)
}

/**
 * The kinds of error the core reports (the juju/errors constructors it uses):
 * NotFound, NotValid and NotImplemented, plus whatever the transport yields.
 * The annotation text that the Go code attaches is not modelled.
 */
module Errors {

  datatype Error =
    | NotFound
    | NotValid
    | NotImplemented
      /** A failure reported by the transport (resolve, dial, write, read deadline). */
    | Transport(code: nat)
}
