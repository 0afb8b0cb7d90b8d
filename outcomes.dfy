/** Option and Result values, and the outcome of a JavaScript call that
    either returns a value or throws. */
module Outcomes {

  datatype Option<+T> = None | Some(value: T) {
    function GetOr(default: T): T {
      match this
      case Some(v) => v
      case None => default
    }
  }

  datatype Result<+T, +E> = Ok(value: T) | Err(error: E)

  /** A call that returned `value`, or threw something whose `message`
      property is `message` (`None` when the thrown value has no message). */
  datatype Outcome<+T> = Returned(value: T) | Threw(message: Option<string>)
}
