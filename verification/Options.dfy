/** Optional values: a Go value that may be nil, a map entry that may be absent. */
module Options {
  datatype Option<+T> = None | Some(value: T)
}
