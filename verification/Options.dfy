/** An optional value: a null pointer, a register that is not set, a fetch without result. */
module Options {

  datatype Option<T> = None | Some(value: T)
}
