/** Small value types shared by every module of the model. */
module Common {

  /** An optional value (a Go nil pointer or a missing map entry). */
  datatype Option<+T> = None | Some(value: T)

  /** A value or an error, for Go's `(value, error)` return pairs. */
  datatype Result<+T, +E> = Success(value: T) | Failure(error: E)

  /** One byte of a file. */
  newtype byte = x: int | 0 <= x < 256

  /** The outcome of `os.ReadFile` as seen by a caller: the data, the
      "does not exist" error that `os.IsNotExist` recognises, or any other
      read error. */
  datatype FileRead = Contents(data: string) | NotExist | ReadError(reason: string)
}
