/** A value that may be absent: a null pointer, a missing map entry, a step that is not enabled. */
module Options {
  datatype Option<+T> = None | Some(value: T) {
    function GetOr(default_value: T): T {
      if Some? then value else default_value
    }
  }
}
