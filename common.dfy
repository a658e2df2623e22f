/** Values shared by both intake ledgers: raw upload bytes, the optional
    query parameter, and the error results that stand in for the HTTP
    exceptions of the service. */
module Common {

  /** One byte of an uploaded file. */
  newtype byte = x: int | 0 <= x < 256

  /** The fully read body of an upload. */
  type Bytes = seq<byte>

  /** A parameter that the caller may leave out. */
  datatype Option<T> = None | Some(value: T)

  /** TooLarge models the 413 response, NotFound the 404 response. */
  datatype Error = TooLarge | NotFound

  datatype Result<T> = Ok(value: T) | Err(error: Error)

  /** The only lifecycle state a record is created in. */
  const StatusReceived := "received"
}
