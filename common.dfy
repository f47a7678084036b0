/** Small value types shared by the modules of the route planner. */
module Common {

  /** A value that may be absent: a JavaScript `undefined` or `null`, a failed `find`. */
  datatype Option<T> = None | Some(value: T)
}
