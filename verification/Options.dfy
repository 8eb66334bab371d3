/** The usual option type, for the source's null results. */
module Options {
  datatype Option<+T> = None | Some(value: T)
}
