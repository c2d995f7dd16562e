/** The optional-value datatype used for the nullable and possibly-missing
    values of the background page: a `null` document id, an absent record,
    a callback that produced no message. */
module Wrappers {

  datatype Option<+T> = None | Some(value: T) {

    /** Returns the value in Some, or `default` for None. */
    function GetOr(default: T): T {
      match this
      case Some(v) => v
      case None => default
    }
  }
}
