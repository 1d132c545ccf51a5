/** Option, the usual stand-in for a pointer that may be NULL or a lookup that may miss. */
module Wrappers {

  datatype Option<+T> = None | Some(value: T) {

    function GetOr(default: T): T {
      match this
      case Some(v) => v
      case None => default
    }
  }
}
