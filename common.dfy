/** Values that JavaScript code may leave `undefined`. */
module Common {

  datatype Option<T> = None | Some(value: T) {
    /** The value, or `default` when absent (JavaScript `x || default` for non-falsy x). */
    function GetOr(default: T): T {
      match this
      case Some(v) => v
      case None => default
    }
  }
}
