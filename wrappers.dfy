// Optional values and results with the Python exceptions the game engine can raise.

module Wrappers {

  datatype Option<+T> = None | Some(value: T)

  /** The exceptions that the modelled code lets escape. */
  datatype Error =
    | IndexError         // an index into an empty or too short list
    | KeyError           // a lookup of a missing dictionary key
    | ValueError         // a malformed number or a wrong number of parts to unpack
    | UnboundLocalError  // a local read on a path that never assigned it

  datatype Result<+T> = Ok(value: T) | Err(error: Error)
  {
    predicate IsFailure() {
      Err?
    }

    function PropagateFailure<U>(): Result<U>
      requires Err?
    {
      Err(error)
    }

    function Extract(): T
      requires Ok?
    {
      value
    }
  }
}
