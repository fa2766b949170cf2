/** The optional-value datatype used for JavaScript's "nothing found" and "threw" outcomes. */
module Wrappers {

  datatype Option<+T> = None | Some(value: T) {

    function GetOr(default: T): T
    {
      match this
      case Some(v) => v
      case None => default
    }
  }
}
