/** Failure-carrying values shared by every module of the model: an absent
    value (a C# null) and the outcome of an operation that can throw. */
module Results {

  datatype Option<+T> = None | Some(value: T)

  datatype Result<+T, +E> = Ok(value: T) | Err(error: E)
}
