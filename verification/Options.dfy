/** A small option type; the standard shape. */
module Options {
  datatype Option<+T> = None | Some(value: T)
}
