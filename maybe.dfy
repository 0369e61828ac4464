/** The optional value used for `null`-able state slots and for outcomes that may be absent. */
module Maybe {

  datatype Option<+T> = None | Some(value: T)
}
