/** Values that may be missing. */
module Options {
  datatype Option<+T> = None | Some(value: T)
}

/** Results that may be refused. */
module Results {
  datatype Result<+T> = Ok(value: T) | Refused
}
