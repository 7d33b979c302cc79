/** Small shared types. */
module Common {

  /** Row identifiers are the database's uuid strings. */
  type Id = string

  datatype Option<+T> = None | Some(value: T)

  datatype Result<+T, +E> = Ok(value: T) | Err(error: E)
}
