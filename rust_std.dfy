/** The few pieces of Rust's standard library that the listener's logic is
    written in: `Result`, `std::io::ErrorKind`, `std::io::Error`, and the way
    a call can end without returning at all (a panic). */
module RustStd {

  /** `core::option::Option`. */
  datatype Option<+T> = None | Some(value: T)

  /** `core::result::Result`. */
  datatype Result<+T, +E> = Ok(value: T) | Err(error: E)

  /** The kinds of `std::io::ErrorKind` that a socket or file call can report.
      The Rust enum is non-exhaustive; the kinds listed here are the stable
      variants of the Rust release this code builds with (about 1.47), and any kind not listed behaves like `Other` for this model. */
  datatype ErrorKind =
    | NotFound
    | PermissionDenied
    | ConnectionRefused
    | ConnectionReset
    | ConnectionAborted
    | NotConnected
    | AddrInUse
    | AddrNotAvailable
    | BrokenPipe
    | AlreadyExists
    | WouldBlock
    | InvalidInput
    | InvalidData
    | TimedOut
    | WriteZero
    | Interrupted
    | Other
    | UnexpectedEof

  /** `std::io::Error`, as built by `io::Error::new(kind, message)`. */
  datatype IoError = IoError(kind: ErrorKind, message: string)

  /** `std::io::Result<T>`. */
  type IoResult<T> = Result<T, IoError>

  /** How a call of the listener can fail: it returns an `io::Error`, or it
      panics (the panic unwinds through every caller up to the task). */
  datatype Failure = IoFailure(error: IoError) | Panic(message: string)

  /** The result of a listener call that may also panic. */
  type Outcome<T> = Result<T, Failure>
}
