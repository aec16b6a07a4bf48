/** A value that may be missing. */
module Options {
  datatype Option<+T> = None | Some(value: T) {

    /** The value, or a default. */
    function GetOr(default: T): T {
      match this
      case Some(v) => v
      case None => default
    }

    /** This if there is something in it, and otherwise another. */
    function Or(other: Option<T>): Option<T> {
      if this.Some? then this else other
    }
  }
}
