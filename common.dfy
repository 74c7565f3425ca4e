/** The optional value used for `None`-returning lookups and absent record fields. */
module Common {

  datatype Option<+T> = None | Some(value: T)
}
