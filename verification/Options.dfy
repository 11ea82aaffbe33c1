/** An answer that may be absent: the sources' `Option`, and what stands for a raised error. */
module Options {
  datatype Option<+T> = None | Some(value: T)
}
