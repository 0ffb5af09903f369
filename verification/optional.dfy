/** The absent-or-present value used wherever the gallery code holds `null`,
    `undefined` or a missing field. */
module Optional {

  datatype Option<+T> = None | Some(value: T)
}
