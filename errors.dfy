/** Go `error` values as they arise in the client. */
module Errors {
  import Text

  /** The error values the client can return. `ApiError` is the one built by
      `fmt.Errorf("%d %s", code, message)` from an API error envelope; the others
      come from the JSON decoder, the file system and the HTTP transport. A
      file error is an *os.PathError: the operation, the path and the cause;
      the decoder's and the transport's texts are left abstract. */
  datatype Error =
    | ApiError(code: int, message: string)
    | DecodeError(detail: string)
    | FileError(op: string, path: string, detail: string)
    | TransportError(detail: string)
  {
    /** What the Go value's `Error()` method returns. */
    function ErrorText(): string
    {
      match this
      case ApiError(code, message) => Text.Itoa(code) + " " + message
      case DecodeError(detail) => detail
      case FileError(op, path, detail) => op + " " + path + ": " + detail
      case TransportError(detail) => detail
    }
  }
}
