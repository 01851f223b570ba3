/*
 * Option and Result types shared by every module of the model.
 *
 * The library reports misuse by throwing C++ exceptions; the model turns
 * every throw into an `Err` value carrying the kind of failure, so that the
 * error paths are ordinary outcomes that contracts can talk about.
 */
module Wrappers {

  datatype Option<+T> = None | Some(value: T)

  /** The ways an operation of the library can fail. */
  datatype Error =
    | InvalidArgument   // std::invalid_argument: a misuse the library checks for
    | OutOfRange        // std::out_of_range: a bitset position or a map key that is not there
    | Terminated        // an exception escaping a noexcept function: the process ends
    | PastEnd           // a read beyond the end of a buffer: undefined behaviour in the source

  datatype Result<+T> = Ok(value: T) | Err(error: Error)
  {
    predicate IsFailure() {
      Err?
    }

    function PropagateFailure<U>(): Result<U>
      requires Err?
    {
      Err(error)
    }

    function Extract(): T
      requires Ok?
    {
      value
    }
  }
}
