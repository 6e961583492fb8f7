/** Small shared datatypes: JavaScript's `null`-or-value, as an option. */
module Base {

  /** A value that may be absent (`T | null` in the app's types). */
  datatype Option<+T> = None | Some(value: T) {

    /** The value, or `default` when absent. */
    function GetOr(default: T): T {
      match this
      case Some(v) => v
      case None => default
    }
  }
}
