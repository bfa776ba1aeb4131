/** The optional value used for the source's `?:` fields and `undefined` results. */
module Optional {
  datatype Option<+T> = None | Some(value: T)
}
