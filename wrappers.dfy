/** Option type used throughout the model for Go's "not found" values and for
    the runtime panics (index out of range, division by zero) and process exits
    that a malformed input triggers in the Go solvers. */
module Wrappers {

  datatype Option<+T> = None | Some(value: T)

}
