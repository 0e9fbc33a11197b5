/** The "no value" sentinel of the lookups (JavaScript's `undefined` for an index). */
module Optional {
  datatype Option<+T> = None | Some(value: T)
}
