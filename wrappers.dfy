/** The optional value used wherever the PHP code has a nullable type (`?int`, `?string`). */
module Wrappers {

  datatype Option<+T> = None | Some(value: T) {

    /** `$x ?? default` */
    function GetOr(default: T): T {
      match this
      case Some(v) => v
      case None => default
    }
  }
}
