/** Failure-carrying values shared by the services. The Java services signal
    failure by throwing; here every exception becomes an `Error` value. */
module Errors {

  /** A possibly-absent value: Java's `Optional`, or a nullable reference. */
  datatype Option<+T> = None | Some(value: T)

  /** The exceptions the services throw, with the message each carries. */
  datatype Error =
    | BadCredentials(message: string)
    | DuplicateResource(message: string)
      /** `ResourceNotFoundException("User with id " + userId + " not found")` */
    | UserNotFound(userId: int)
    | IllegalArgument(message: string)
    | ServerError(message: string)

  /** Outcome of a `void` validation: it returns normally or throws. */
  datatype Check = Pass | Fail(error: Error)

  /** Outcome of a call that returns a value or throws. */
  datatype Result<+T> = Ok(value: T) | Err(error: Error)

  /** A state transition that may throw part-way through: the state it
      reached (writes done before the throw stay done) and its outcome. */
  datatype Effect<+S, +T> = Effect(state: S, result: Result<T>)

  /** The first failure of a sequence of validations run in order, as a chain
      of `void` validators that each may throw. */
  function FirstFailure(checks: seq<Check>): (r: Check)
    ensures r.Pass? <==> forall i :: 0 <= i < |checks| ==> checks[i].Pass?
    ensures r.Fail? ==>
      exists k :: 0 <= k < |checks| && checks[k] == r &&
        forall j :: 0 <= j < k ==> checks[j].Pass?
  {
    if checks == [] then Pass
    else if checks[0].Fail? then checks[0]
    else FirstFailure(checks[1..])
  }
}
