/** Optional values: a missing row, an unset column or a dictionary lookup that fails. */
module Options {
  datatype Option<+T> = None | Some(value: T)

  /** The value as a list of at most one element. */
  function Listed<T>(o: Option<T>): seq<T> {
    if o.Some? then [o.value] else []
  }
}
