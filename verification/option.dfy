/** The absent-or-present value the engine writes as `()` / a tuple or as `None` / a value. */
module Options {

  datatype Option<T> = None | Some(value: T)
}
