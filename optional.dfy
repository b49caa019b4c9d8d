/** A value that may be absent: the model's stand-in for C#'s nullable types
    (`DateTime?`, `int?`) and for a `FirstOrDefault` that found nothing. */
module Optional {

  datatype Option<T> = None | Some(value: T)
}
