/** An optional value, standing for the source's `number | null`. */
module Options {
  datatype Option<T> = None | Some(value: T)
}
