/** The usual optional-value datatype, used for results that may be absent
    (no export offered, a service that was not called). */
module Optional {
  datatype Option<+T> = None | Some(value: T)
}
