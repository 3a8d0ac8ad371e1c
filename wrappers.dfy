/** Option and Result types, and the service error taxonomy (the HTTP exceptions
    the services throw: NotFoundException, BadRequestException, ConflictException). */
module Wrappers {

  datatype Option<+T> = None | Some(value: T)

  /** The exception classes the core throws, with their messages. */
  datatype Error =
    | NotFound(message: string)
    | BadRequest(message: string)
    | Conflict(message: string)

  /** A service call either resolves to a value or throws one of the exceptions. */
  datatype Result<+T> = Ok(value: T) | Err(error: Error) {

    predicate IsFailure() {
      Err?
    }

    function PropagateFailure<U>(): Result<U>
      requires Err?
    {
      Err(error)
    }

    function Extract(): T
      requires Ok?
    {
      value
    }
  }
}
