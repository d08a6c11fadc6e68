/** Failure-carrying values shared by every module of the model.
    The toolkit reports errors as a second return value; the model returns
    them as data so that every error path is part of a contract. */
module Results {

  /** A value that may be absent (a nil pointer or channel in the toolkit). */
  datatype Option<T> = None | Some(value: T)

  /** Either a computed value or the error the toolkit would return. */
  datatype Result<T, E> = Success(value: T) | Failure(error: E)
}
