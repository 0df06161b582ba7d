/** The absent-value convention of the model: JavaScript's `undefined` (and an
    optional property that is not set) is `None`. */
module Options {

  datatype Option<+T> = None | Some(value: T) {

    /** The value, or `default` when absent (JavaScript's `x ?? default` for
        a value that is never `null`). */
    function GetOr(default: T): T {
      match this
      case Some(v) => v
      case None => default
    }
  }
}
