/** Optional values, for what the source writes as `None` or as a missing key. */
module Options {

  datatype Option<+T> = None | Some(value: T)
}
