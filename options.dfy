/** The optional value used wherever the ray tracer returns `Option`. */
module Options {
  datatype Option<T> = None | Some(value: T)
}
