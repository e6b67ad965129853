/** Shared result types for the anti-fraud service model.

    The services signal failures by throwing exceptions that a controller
    advice maps to HTTP statuses. Here every failure is a value of `Error`,
    and every state-changing operation returns a `Step`: the next state
    together with the operation's outcome. */
module Base {

  /** A possibly absent value; `None` also stands for a Java `null`. */
  datatype Option<+T> = None | Some(value: T)

  /** The kinds of failure the services raise. */
  datatype Error =
    | BadRequest     // IllegalArgumentException: malformed or refused input
    | NotFound       // *NotFoundException
    | Conflict       // *ConflictException, UsernameAlreadyExistsException
    | Unprocessable  // UnprocessableFeedbackException

  datatype Result<+T> = Ok(value: T) | Err(error: Error)

  /** The state after an operation and what the operation returned. */
  datatype Step<+S, +T> = Step(next: S, out: Result<T>)
}
