/** The one optional type the whole project shares: a nullable column, key or reply. */
module Options {
  datatype Option<+T> = None | Some(value: T)
}
