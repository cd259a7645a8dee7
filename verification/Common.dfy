/** Results and options, as the service's `io::Result` and `Option`. */
module Common {

  datatype Option<+T> = None | Some(value: T)

  /** The `io::ErrorKind`s the service returns. */
  datatype ErrorKind = NotFound | InvalidInput | Other

  datatype Result<+T> = Ok(value: T) | Err(kind: ErrorKind)
}
