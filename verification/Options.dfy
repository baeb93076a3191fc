/** The two result shapes shared by every model in this project. */
module Options {

  /** A value that may be absent; a nil Go error is modelled as None. */
  datatype Option<+T> = None | Some(value: T)

  /** What a lookup or a fallible operation hands back. */
  datatype Result<+T, +E> = Ok(value: T) | Err(error: E)
}
