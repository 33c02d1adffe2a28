/** The absence signal used throughout the model: `None` stands for the
    null that the original code returns, or for an exception it catches. */
module Wrappers {

  datatype Option<+T> = None | Some(value: T) {

    predicate IsFailure() {
      None?
    }

    function PropagateFailure<U>(): Option<U>
      requires None?
    {
      None
    }

    function Extract(): T
      requires Some?
    {
      value
    }

    function GetOr(default: T): T {
      match this
      case Some(v) => v
      case None => default
    }
  }
}
