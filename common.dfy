/** Values that may be absent, shared by the other modules. */
module Common {

  /** A value that is present (`Some`) or absent (`None`), like an optional field of a TypeScript record. */
  datatype Option<+T> = None | Some(value: T)
}
