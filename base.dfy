/** Small shared vocabulary: optional values (JavaScript's `null`) and identifier names. */
module Base {

  /** A value that may be absent; `None` plays the role of JavaScript's `null`. */
  datatype Option<+T> = None | Some(value: T) {

    /** The wrapped value, or `default` when there is none (JavaScript's `x ? x : default`). */
    function GetOr(default: T): T {
      match this
      case Some(v) => v
      case None => default
    }
  }

  /** An identifier or property name. */
  type Name = string
}
