/** Failure-compatible wrappers for the report pipeline: every Python exception that
    the pipeline lets escape becomes an `Err` carrying one of the `Error` kinds. */
module Outcomes {

  /** The kinds of failure the normalize and filter steps can raise. */
  datatype Error =
    | MalformedTimestamp(text: string)  // ValueError: the split or the strptime pattern did not match
    | MissingKey(key: string)           // KeyError on a record (or nested mapping) lookup
    | TypeMismatch(key: string)         // TypeError / AttributeError: the field has the wrong JSON type

  datatype Option<+T> = None | Some(value: T)

  datatype Result<+T> = Ok(value: T) | Err(error: Error) {

    predicate IsFailure() {
      Err?
    }

    function PropagateFailure<U>(): Result<U>
      requires Err?
    {
      Err(error)
    }

    function Extract(): T
      requires Ok?
    {
      value
    }
  }
}
