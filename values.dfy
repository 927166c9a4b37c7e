/** Optional values and results, used for the environment lookup, the
    driver's reply to an ID write and the parse of a typed number. */
module Values {

  datatype Option<+T> = None | Some(value: T)

  datatype Result<+R, +E> = Success(value: R) | Failure(error: E)
}
