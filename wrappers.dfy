/** Small failure-carrying datatypes shared by the modules of this model. */
module Wrappers {

  /** A value that may be absent (a null pointer, an option that was not given). */
  datatype Option<T> = None | Some(value: T)

  /** The result of an operation that either completes or stops the whole run with a
      message (Rosetta's `utility_exit_with_message` and `runtime_assert`). */
  datatype Result<T> = Ok(value: T) | Fatal(message: string)
}
