/** Values shared by every module of the model: Go's `error` results and panics. */
module Errors {

  datatype Option<+T> = None | Some(value: T)

  /** Go's `error` return value: `nil`, or an error carrying its message. */
  datatype Status = Nil | Error(msg: string)

  /** A value or an error, for Go functions that return `(T, error)`. */
  datatype Result<+T> = Ok(value: T) | Failed(msg: string)

  /** The outcome of a Go call that can panic instead of returning `value`. */
  datatype Outcome<+T> = Return(value: T) | Panic(msg: string)

  /** The outcome of a Go function without results that can panic. */
  datatype Completion = Completed | Panicked(msg: string)
}
