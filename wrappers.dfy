/** Option, the stand-in for JavaScript's `undefined`/`null` on values the code
    distinguishes from every ordinary value. */
module Wrappers {

  datatype Option<+T> = None | Some(value: T) {

    /** The value, or `default` when there is none. */
    function GetOr(default: T): T {
      match this
      case Some(v) => v
      case None => default
    }
  }
}
