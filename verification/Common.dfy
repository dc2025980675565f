module Common {

  datatype Option<+T> = None | Some(value: T)

  /** The three named overflow policies. */
  datatype Policy = Block | DropNewest | DropOldest
}
