/** The part of the standard I/O error vocabulary the listeners touch: an
    error kind, and an optional raw operating-system error code. */
module IoErrors {
  import opened Results

  /** The error kinds the model distinguishes; every other kind is `Other`. */
  datatype ErrorKind =
    | NotFound
    | PermissionDenied
    | AlreadyExists
    | AddrInUse
    | WouldBlock
    | InvalidInput
    | Other

  /** An I/O error. Errors read back from the operating system carry the raw
      code; errors built from a bare kind carry none. */
  datatype IoError = IoError(kind: ErrorKind, rawOsError: Option<int>)

  type IoResult<T> = Result<T, IoError>

  /** An error built from a bare kind, as `io::Error::from(kind)` does. */
  function FromKind(kind: ErrorKind): (e: IoError)
    ensures e.kind == kind
    ensures e.rawOsError == None
  {
    IoError(kind, None)
  }
}
