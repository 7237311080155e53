/** Values shared by every part of the image-processing service model. */
module Common {

  /** The conventional optional value. */
  datatype Option<+T> = None | Some(value: T)

  /** The outcome of a step that may fail with one of the service's errors. */
  datatype Result<+T> = Ok(value: T) | Err(error: Error)

  /**
   * The errors the request handler can return.
   * BadRequest carries the reason and message strings the handler passes to
   * kratos' BadRequest constructor; the others stand for errors that come
   * back from a library or from the image backend.
   */
  datatype Error =
    | BadRequest(reason: string, message: string)
    | Base64Error      // base64.RawStdEncoding rejected the watermark text
    | FloatSyntaxError // strconv.ParseFloat rejected a blur parameter
    | ScanError        // fmt.Sscanf did not read three hex bytes from a colour
    | IndexPanic       // an index out of range (recovered at the transport layer)
    | BackendError     // the image backend reported a failure

  /** An 8-bit unsigned value (Go's uint8 / byte). */
  type byte = x: int | 0 <= x < 256

  /** An RGB colour as handed to the backend. */
  datatype Color = Color(r: byte, g: byte, b: byte)
}
