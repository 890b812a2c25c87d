/** A value that may be absent: JavaScript's `null` / missing key. */
module Wrappers {

  datatype Option<+T> = None | Some(value: T) {

    /** The held value, or `default` when absent (JavaScript's `x ?? default`). */
    function GetOr(default: T): T {
      match this
      case Some(v) => v
      case None => default
    }
  }

  /** How an awaited store call ended: it threw (the `catch` branch), or it resolved with a value. */
  datatype Outcome<+T> = Failed | Resolved(value: T)
}
