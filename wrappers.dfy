/** Option, Result and the unit-valued Outcome used for `Result<(), MaestroError>`. */
module Wrappers {

  datatype Option<+T> = None | Some(value: T)

  /** `Result<T, String>`: the error side is the message text the source builds. */
  datatype Result<+T> = Ok(value: T) | Err(error: string)

  /** `Result<(), MaestroError>`. */
  datatype Outcome = Done | Failed(msg: string)

  function OutcomeOf<T>(r: Result<T>): (o: Outcome)
    ensures o.Done? <==> r.Ok?
    ensures o.Failed? ==> o.msg == r.error
  {
    match r
    case Ok(_) => Done
    case Err(e) => Failed(e)
  }
}
