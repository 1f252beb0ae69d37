/** A value that may be absent: SQL's NULL and JavaScript's null or undefined. */
module Options {
  datatype Option<+T> = None | Some(value: T)
}
