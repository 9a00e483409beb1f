/** An optional value: an operation's "no result" as a value rather than a sentinel. */
module Options {
  datatype Option<T> = None | Some(value: T)
}
