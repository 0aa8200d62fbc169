// Shared outcome types.  Every exception a modelled function can raise is a
// value here, so no precondition hides an error path.
module Results {

  datatype Option<+T> = None | Some(value: T)

  datatype Result<+T, +E> = Ok(value: T) | Err(error: E)
}
