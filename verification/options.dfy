/** The absent-or-present value used for every optional field of a line. */
module Options {

  /** `None` is Python's `None`; `Some(v)` is a present value, which may still
      be an empty string. */
  datatype Option<+T> = None | Some(value: T)
}
