/** A value that may be absent: Ruby's `nil` where a method can return one. */
module Options {

  datatype Option<T> = None | Some(value: T)
}
