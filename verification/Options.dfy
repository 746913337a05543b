/** The conventional optional value, used for the nullable columns and absent replies of the daemon. */
module Options {
  datatype Option<+T> = None | Some(value: T)
}
