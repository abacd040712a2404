/** Java's nullable references: every column and every DTO field may be null. */
module Options {

  datatype Option<+T> = None | Some(value: T)
}
