/** C# null and C# exceptions as values: a reference that may be null is an `Option`, and
    an operation either returns a value or throws. */
module Exceptions {

  datatype Option<+T> = None | Some(value: T)

  /** The exception classes the core raises or catches. */
  datatype ExceptionKind =
    | ApiException              // EmailService.DTO.Response.ApiException
    | NullReference             // dereferencing a null string
    | ArgumentNull              // a library argument that must not be null
    | Format                    // unparsable header or base64 text
    | IndexOutOfRange           // indexing past the end of an array
    | MimeParse                 // MimeKit's ParseException for a bad mailbox
    | ServiceNotConnected       // MailKit: command on a client that is not connected
    | SslHandshake              // MailKit: the TLS handshake was refused
    | InvalidOperation          // ASP.NET: headers changed after the response started
    | Smtp                      // any other failure the SMTP server or the network reports

  datatype Exception = Exception(kind: ExceptionKind, message: string)

  /** `throw new ApiException(message)` */
  function ApiError(message: string): Exception
  {
    Exception(ApiException, message)
  }

  /** The result of a call that may throw. */
  datatype Outcome<+T> = Returned(value: T) | Threw(exception: Exception)

  /** The text the .NET runtime or a library puts in the exceptions it raises itself. */
  type RuntimeMessages = ExceptionKind -> string
}
