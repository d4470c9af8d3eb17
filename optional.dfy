/** An optional value: JavaScript's `undefined` (or a missing attribute) is `None`. */
module Optional {

  datatype Option<T> = None | Some(value: T) {

    /** The value, or `default` when there is none (the source's `x ?? d`). */
    function GetOr(default: T): T {
      if Some? then value else default
    }
  }
}
