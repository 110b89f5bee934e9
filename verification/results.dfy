/** Option and Result values: the outcomes of the Points entry points and of
    the abstract readers and writers they call. */
module Results {

  /** A value that may be absent: an optional channel, a property lookup that
      found nothing, or a document lookup that failed. */
  datatype Option<+T> = None | Some(value: T)

  /** Either a value or the error that a call raised instead. */
  datatype Result<+R, +E> = Success(value: R) | Failure(error: E)
}
