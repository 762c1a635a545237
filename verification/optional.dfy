/** Kotlin's nullable types (`T?`), written out as an explicit option. */
module Optional {

  datatype Option<+T> = None | Some(value: T)
}
