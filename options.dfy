/** An optional value, used where the source returns null or an iterator at end(). */
module Options {
  datatype Option<T> = None | Some(value: T)
}
