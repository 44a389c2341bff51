/** Shared helper datatype used by several models. */
module Common {

  /** `Option<T>` as in Rust's core library. */
  datatype Option<+T> = None | Some(value: T)
}
