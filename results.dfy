/** Failure-carrying values. The Go code signals most failures by panicking
    (PanicOnError, PanicWithMessage); this model returns them instead. */
module Results {

  datatype Option<+T> = None | Some(value: T)

  datatype Result<+T, +E> = Ok(value: T) | Err(error: E)
}
