/** The repository's `Ok`/`Err` results, and optional values for nullable data. */
module Results {
  datatype Option<+T> = None | Some(value: T)

  datatype Result<+T> = Ok(value: T) | Err(error: string)
}
