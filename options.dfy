/** The optional value used wherever the source has `string | null` or an
    optional callback. */
module Options {
  datatype Option<+T> = None | Some(value: T)
}
