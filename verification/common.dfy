/** Failure-carrying datatypes shared by every module. */
module Common {
  datatype Option<+T> = None | Some(value: T)

  datatype Result<+T, +E> = Ok(value: T) | Err(error: E)

  function Default<T>(o: Option<T>, d: T): T {
    match o case Some(v) => v case None => d
  }
}
