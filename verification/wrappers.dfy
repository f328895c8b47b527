/** Failure-carrying results used across the model. */
module Wrappers {

  /** A value that may be missing, e.g. a lookup that found nothing. */
  datatype Option<+T> = None | Some(value: T)

  /** Why an operation on a field was refused. */
  datatype Fault =
    | ParseError(text: string)   // a text command whose payload did not parse
    | Misuse                     // a missing or wrongly typed source, reference or child
    | NotModelled                // an operation of a field class outside the model
    | Unranked                   // a dependency that does not climb the static rank

  /** The outcome of an operation that can fail with a `Fault`; `:-` passes
      the first fault on. */
  datatype Result<+T> = Ok(value: T) | Err(fault: Fault) {
    predicate IsFailure() {
      Err?
    }

    function PropagateFailure<U>(): Result<U>
      requires Err?
    {
      Err(fault)
    }

    function Extract(): T
      requires Ok?
    {
      value
    }
  }
}
