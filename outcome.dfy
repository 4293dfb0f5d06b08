/** Failure-compatible wrappers used by every handler of the model. A handler
    either succeeds with a value or stops at a named error, which stands for the
    `res.status(...).json({ message })` early returns of the controllers. */
module Outcome {

  /** An optional value: a field that may be absent from a request body or a
      document, or a lookup that may find nothing. */
  datatype Option<+T> = None | Some(value: T) {
    /** The value, or `default` when absent. */
    function Or(default: T): T {
      match this
      case Some(v) => v
      case None => default
    }
  }

  /** The outcome of a handler: `Ok` with its result or `Err` with the error it
      answered with. */
  datatype Result<+T, +E> = Ok(value: T) | Err(error: E) {
    predicate IsFailure() { Err? }

    function PropagateFailure<U>(): Result<U, E>
      requires Err?
    {
      Err(error)
    }

    function Extract(): T
      requires Ok?
    {
      value
    }
  }
}
