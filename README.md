# EmailService core in Dafny

EmailService is an ASP.NET Web API that receives an email request (sender overrides, one To
address, optional Cc and Bcc, subject, HTML body, optional file attachments), authenticates the
caller with HTTP Basic credentials, builds a MimeKit `MimeMessage` and relays it to an SMTP
server through MailKit. This project models the decision logic of that pipeline and proves
what it does:

- **MailService**:
  - the credential check `BasicAuthenticate`;
  - the message composition `ConvertMimeMessage`;
  - the SMTP call sequence of `SendMailAsync`;
  - the certificate decision `SslCertificateValidationCallback`;
  - the way `SendHTMLMail` and `SendWithoutAttachment` reduce every failure to
    `ApiException("Internal server error.")`.
- **BasicAuthenticationHandler.HandleAuthenticateAsync**, as a pure function covering
  anonymous endpoints, the header check, base64 decoding, the split at the first ':', the list
  look-up, and the three failure messages or the ticket.
- **Response&lt;T&gt;**: the five constructors and the fields each one sets.
- **CustomExceptionMiddleware**:
  - the error envelope;
  - how `Invoke` and `HandleExceptionAsync` update the HTTP response: content type, status,
    then body.

## Modules

- **Shared values** (`exceptions.dfy`, `text.dfy`, `base64.dfy`):
  - C# exceptions are values. `Outcome<T>` is either `Returned(value)` or `Threw(exception)`,
    and a C# null is `None`.
  - `Text` holds the .NET string operations the core uses: `Trim`, `IsNullOrWhiteSpace`, and
    `Split(new[] { ':' }, 2)`.
  - `Base64` is `Convert.FromBase64String`, following section 4 of RFC 4648 with the .NET
    leniencies: blanks and line breaks are skipped, and unused bits are not checked. The encoder
    is proved to be its inverse.
- **Data types** (`responses.dfy`, `settings.dfy`, `requests.dfy`, `mime.dfy`):
  - `Response<T>`, the configuration, the two request bodies, and the MIME object model.
- **The SMTP client** (`smtp.dfy`):
  - MailKit's `SmtpClient` is a class. It records every call made on it, and tracks whether it
    is connected and whether it is disposed.
  - The server is a value that says how each call is answered and what the TLS handshake
    presents to the certificate callback.
- **The core** (`mail_service.dfy`, `basic_authentication.dfy`, `exception_middleware.dfy`).

Foreign calls are parameters, given as total functions:
- `MailboxAddress.Parse`, which returns None where it would throw;
- the address check of the `MailboxAddress(name, address)` constructor, false where it would
  throw;
- `AuthenticationHeaderValue.Parse`;
- `Encoding.UTF8.GetString`;
- the message texts the runtime puts in the exceptions it raises.

## Where the model follows the code rather than the design

- **The success envelope.** `new Response<string>("Successfully sent email")` binds to the
  `(T data, string message = "Success")` constructor. The success envelope therefore has Data
  "Successfully sent email" and Message "Success", not that text in both fields
  (`Responses.OneStringIsData`).
- **No connection mode.** With neither `IsUseSsl` nor `IsUseStartTls` set, the service makes
  no Connect call at all; it does not connect without encryption. MailKit refuses
  Authenticate on a client that is not connected, so such a configuration never delivers
  (`MailService.NoTransportNeverDelivers`).
- **STARTTLS and the callback.** The custom certificate callback is installed for SslOnConnect
  only. STARTTLS uses MailKit's default validation.
- **Sender defaults.** The sender's address and display name fall back to the configuration
  only when they are null. An empty string is kept.
- **Authentication failures are thrown.** The handler throws `ApiException` instead of
  returning `AuthenticateResult.Fail`. When the exception middleware runs ahead of
  authentication, the caller sees the failure as its 500 envelope, and all three messages stay
  distinct. That order is set in `Startup.cs`, which is not part of this model.
- **A missing Basic list.** `BasicAuthenticate` raises `ApiException("Internal server error.")`
  when the configuration has no Basic list. The handler's bare catch turns that into
  "Invalid Authorization Header".

## Model

| member | source | states |
|---|---|---|
| Text.IsWhiteSpace | EmailService/Services/MailService.cs:123 | .NET's white-space set: blank, tab, CR and LF are in it, and no letter, digit or '@' is |
| Text.Trim | EmailService/Services/MailService.cs:123 | the result is the infix of the input after its leading white space, everything cut off is white space, and the result neither starts nor ends with white space |
| Text.IsNullOrWhiteSpace | EmailService/Services/MailService.cs:125-130 | a value is null-or-white-space exactly when it is null or trimming it leaves nothing |
| Text.AllWhiteSpaceIffTrimEmpty | EmailService/Services/MailService.cs:125-130 | a string consists of white space only exactly when trimming it leaves nothing |
| Text.TrimIdempotent | EmailService/Services/MailService.cs:123 | trimming twice is trimming once |
| Text.SplitFirst | EmailService/Infrastructure/Helpers/BasicAuthenticationHandler.cs:48 | one part exactly when there is no ':', else two parts: a colon-free prefix and the rest, which join with ':' back to the input |
| Text.SplitFirstUnique | EmailService/Infrastructure/Helpers/BasicAuthenticationHandler.cs:48-50 | for a colon-free u, splitting u + ":" + p gives exactly [u, p], whatever colons p holds |
| Base64.Value | EmailService/Infrastructure/Helpers/BasicAuthenticationHandler.cs:47 | a character's value, when it has one, maps back to that character |
| Base64.IsSkipped | EmailService/Infrastructure/Helpers/BasicAuthenticationHandler.cs:47 | the characters FromBase64String skips; none of them is an alphabet character or the pad '=' |
| Base64.RemoveSkipped | EmailService/Infrastructure/Helpers/BasicAuthenticationHandler.cs:47 | no blank or line break is left, and no other character is introduced |
| Base64.RemoveSkippedCounts | EmailService/Infrastructure/Helpers/BasicAuthenticationHandler.cs:47 | every character that is not skipped occurs in the result exactly as often as in the input |
| Base64.RemoveSkippedAppend | EmailService/Infrastructure/Helpers/BasicAuthenticationHandler.cs:47 | skipping distributes over concatenation, so the kept characters stay in their order |
| Base64.RemoveSkippedOne | EmailService/Infrastructure/Helpers/BasicAuthenticationHandler.cs:47 | a single character is dropped exactly when it is a blank or a line break, and kept otherwise |
| Base64.Encode | EmailService/Services/MailService.cs:153 | the encoding's length is four characters per started group of three bytes |
| Base64.Decode | EmailService/Infrastructure/Helpers/BasicAuthenticationHandler.cs:47 | a text whose significant characters are not whole quads is rejected, and an accepted one yields at most three bytes per quad |
| Base64.DecodeQuadsAcceptsExactly | EmailService/Infrastructure/Helpers/BasicAuthenticationHandler.cs:47 | a whole number of quads decodes exactly when it is well formed: alphabet characters throughout, except a final "=" or "==" |
| Base64.DecodeAcceptsExactly | EmailService/Infrastructure/Helpers/BasicAuthenticationHandler.cs:47 | FromBase64String accepts a text exactly when its significant characters are well formed, and throws FormatException otherwise |
| Base64.DecodeRejectsForeignCharacter | EmailService/Infrastructure/Helpers/BasicAuthenticationHandler.cs:47 | a significant character that is neither in the alphabet nor '=' makes decoding fail, wherever it stands |
| Base64.DecodeRejectsInnerPad | EmailService/Infrastructure/Helpers/BasicAuthenticationHandler.cs:47 | a '=' before the last two significant positions makes decoding fail |
| Base64.DecodeExamples | EmailService/Infrastructure/Helpers/BasicAuthenticationHandler.cs:47 | "!!!!", "=QQQ" and "QQ=A" are each refused |
| Base64.DecodeQuadsLength | EmailService/Infrastructure/Helpers/BasicAuthenticationHandler.cs:47 | decoding quads yields at most three bytes per quad |
| Base64.DecodeEncode | EmailService/Infrastructure/Helpers/BasicAuthenticationHandler.cs:47 | decoding an encoding gives the bytes back, for every byte sequence |
| Base64.DecodeAnyLineBreaks | EmailService/Services/MailService.cs:153 | any text that is an encoding with blanks or line breaks inserted decodes to the encoded bytes |
| Base64.DecodeQuadsEncode | EmailService/Infrastructure/Helpers/BasicAuthenticationHandler.cs:47 | decoding the quads of an encoding gives the bytes back |
| Responses.Empty | EmailService/DTO/Response/Response.cs:9-11 | every field is at its default: false, 0, null |
| Responses.WithData | EmailService/DTO/Response/Response.cs:13-19 | Succeeded true, Code 200, Message as given ("Success" by default), Data as given, Errors null |
| Responses.WithCode | EmailService/DTO/Response/Response.cs:22-27 | exactly Message, Code and Succeeded are set; Errors and Data stay null |
| Responses.WithErrors | EmailService/DTO/Response/Response.cs:29-35 | Errors is stored as given, null included, beside the three fields |
| Responses.WithEmptyErrors | EmailService/DTO/Response/Response.cs:37-43 | the three fields are set and Errors is an empty list, Data null |
| Responses.OneStringIsData | EmailService/Services/MailService.cs:46 | a one-string construction puts the string in Data and "Success" in Message |
| Responses.ThreeArgumentOverloadHasEmptyErrors | EmailService/Infrastructure/Middlewares/CustomExceptionMiddleware.cs:40 | the (message, succeeded, code) call gives an empty Errors list where the overload with a defaulted fourth argument would give null |
| Mime.WireText | EmailService/Services/MailService.cs:153 | the base64 wire text of an attachment decodes to its content |
| Smtp.ConnectResult | EmailService/Services/MailService.cs:88-90 | an installed callback that refuses the handshake's certificate gives the handshake refusal; with no callback, or one that accepts, the server answers |
| Smtp.SmtpClient.constructor | EmailService/Services/MailService.cs:83 | a new client is not connected, not disposed, has no callback and has made no call |
| Smtp.SmtpClient.SetCertificateValidation | EmailService/Services/MailService.cs:88 | the callback is installed and nothing else changes |
| Smtp.SmtpClient.Connect | EmailService/Services/MailService.cs:90 | the call is recorded with whether a custom callback is installed; a client that is already connected refuses; otherwise a refusing callback or the server decide, and the client is connected exactly when there is no error |
| Smtp.SmtpClient.Authenticate | EmailService/Services/MailService.cs:97 | the call is recorded; without a connection it fails with ServiceNotConnected, otherwise the server answers |
| Smtp.SmtpClient.Send | EmailService/Services/MailService.cs:98 | the call is recorded; without a connection it fails with ServiceNotConnected, otherwise the server answers |
| Smtp.SmtpClient.Disconnect | EmailService/Services/MailService.cs:99 | the call is recorded; the client ends disconnected, and only a connected client asks the server |
| Smtp.SmtpClient.Dispose | EmailService/Services/MailService.cs:83 | the client is released and disconnected; the call record is kept |
| MailService.Contains | EmailService/Services/MailService.cs:108 | true exactly when the string is an element of the list |
| MailService.BasicAuthenticate | EmailService/Services/MailService.cs:102-116 | with a Basic list: true exactly when "username:password" is in it, compared ordinally; without one: ApiException("Internal server error.") |
| MailService.BasicAuthenticateJoined | EmailService/Services/MailService.cs:108 | two pairs that join to the same "user:pass" text get the same answer |
| MailService.Coalesce | EmailService/Services/MailService.cs:122 | `a ?? b`: the left operand unless it is null, the right one otherwise |
| MailService.Sender | EmailService/Services/MailService.cs:122 | From and DisplayName fall back to the configuration only when null, an empty string is kept; a null address fails with ArgumentNull, one the constructor refuses with a parse failure, and otherwise the mailbox holds exactly that name and address |
| MailService.Recipient | EmailService/Services/MailService.cs:123 | a null To fails with NullReference; otherwise the mailbox parsed from the trimmed To, or the parse failure |
| MailService.OptionalRecipient | EmailService/Services/MailService.cs:125-133 | empty when blank, otherwise exactly the one mailbox parsed from the trimmed value, or the parse failure |
| MailService.Parts | EmailService/Services/MailService.cs:141-158 | one part per file, in the order of the files |
| MailService.Attachments | EmailService/Services/MailService.cs:139-140 | no parts for a null list, otherwise one per file |
| MailService.Compose | EmailService/Services/MailService.cs:119-164 | composing succeeds exactly when the sender, To, Cc and Bcc steps succeed; the first failing step decides the exception: the sender's (ArgumentNull or a parse failure), that of the To, and a parse failure for a Cc or a Bcc; and a message holds the sender, the parsed trimmed To, a Cc and a Bcc exactly when they are not blank, the subject and HTML body verbatim, and one part per file in order |
| MailService.AddOptional | EmailService/Services/MailService.cs:125-133 | the Cc or Bcc block gives exactly the list, or the parse failure, that OptionalRecipient defines |
| MailService.AttachmentPart | EmailService/Services/MailService.cs:149-155 | each part is application/octet-stream, an attachment, base64 on the wire, with the file's name and its whole content, which the wire text decodes back to |
| MailService.PartsSnoc | EmailService/Services/MailService.cs:141-156 | each further file appends its own part at the end of the attachments |
| MailService.AttachFiles | EmailService/Services/MailService.cs:139-158 | the loop appends exactly the parts of the files, in order |
| MailService.ConvertMimeMessage | EmailService/Services/MailService.cs:119-164 | the method builds exactly the message, or throws exactly the exception, that Compose gives |
| MailService.CheckCertificate | EmailService/Services/MailService.cs:170-193 | the branch taken: valid exactly when there is no error, NotAvailable whenever that bit is set, NameMismatch when it is set without NotAvailable, chain errors otherwise |
| MailService.SslCertificateValidationCallback | EmailService/Services/MailService.cs:167-215 | accepts exactly when the platform reported no policy error |
| MailService.CertificatePrecedence | EmailService/Services/MailService.cs:176-191 | a name mismatch is always rejected, and NotAvailable is reported before NameMismatch |
| MailService.Plan | EmailService/Services/MailService.cs:85-99 | SslOnConnect with the callback when IsUseSsl, else StartTls without it when IsUseStartTls, else no Connect; then Authenticate, Send and Disconnect(true), in that order |
| MailService.ConnectPlan | EmailService/Services/MailService.cs:85-95 | at most one call, none exactly when neither flag is set; it is a Connect to the configured server and port, SslOnConnect exactly under IsUseSsl, with the custom callback exactly then |
| MailService.PlanConnectsOnlyFirst | EmailService/Services/MailService.cs:85-95 | Connect can only be the first call, and there is none exactly when neither flag is set |
| MailService.CallResult | EmailService/Services/MailService.cs:90-99 | a second Connect fails with InvalidOperation; Authenticate and Send without a connection fail with ServiceNotConnected; Disconnect without one does nothing; under the custom callback a faulty certificate gives the handshake refusal; every other call gets the server's answer |
| MailService.ConnectedAfter | EmailService/Services/MailService.cs:90-99 | a successful Connect connects and a refused second one keeps the connection, Disconnect always disconnects, Authenticate and Send leave the state alone |
| MailService.Run | EmailService/Services/MailService.cs:90-99 | the calls made are a prefix of the plan, all of it when nothing failed, and at least one call when something did |
| MailService.RunStopsAtFirstFailure | EmailService/Services/MailService.cs:90-99 | every call before the last one made succeeded in the state the earlier calls left; a reported exception is the one the last call raised in that state; without one, every call succeeded |
| MailService.Delivery | EmailService/Services/MailService.cs:83-99 | over a fresh client at least one call is made, the calls are a prefix of the plan, and all of it when nothing failed |
| MailService.SendFollowsAuthenticate | EmailService/Services/MailService.cs:97-99 | Send is made only after Authenticate, and Disconnect only after Send |
| MailService.NoTransportNeverDelivers | EmailService/Services/MailService.cs:85-97 | with neither flag set, only Authenticate is attempted and it fails with ServiceNotConnected |
| MailService.FaultyCertificateStopsAtConnect | EmailService/Services/MailService.cs:85-90 | under IsUseSsl a certificate with any policy error ends the delivery at Connect |
| MailService.DeliverySucceeds | EmailService/Services/MailService.cs:85-99 | with a mode set, an acceptable certificate and a server that accepts everything, the whole plan runs without error |
| MailService.OpenConnection | EmailService/Services/MailService.cs:85-95 | the connect step makes the selected Connect call, and what follows it continues the run of the whole plan |
| MailService.SendMailAsync | EmailService/Services/MailService.cs:74-100 | the calls made and the exception raised are those of running the plan, and the client is released on every path |
| MailService.SendOutcome | EmailService/Services/MailService.cs:38-72 | success exactly when composing and delivering both succeed, giving Data "Successfully sent email"; every failure is ApiException("Internal server error."); a failed composition makes no SMTP call |
| MailService.SendHTMLMail | EmailService/Services/MailService.cs:38-54 | the result and the calls are the send outcome of composing the request with its attachments |
| MailService.SendWithoutAttachment | EmailService/Services/MailService.cs:56-72 | the result and the calls are the send outcome of composing with no file list, and every message sent has no attachment |
| MailService.BadRecipientSendsNothing | EmailService/Services/MailService.cs:40-53 | a null or unparsable To ends in the generic API error before any SMTP call |
| BasicAuthentication.TicketFor | EmailService/Infrastructure/Helpers/BasicAuthenticationHandler.cs:61-67 | two claims, NameIdentifier then Name, both holding the username, under the handler's scheme |
| BasicAuthentication.DecodedCredentials | EmailService/Infrastructure/Helpers/BasicAuthenticationHandler.cs:46-48 | a text exactly when the header parses, has a parameter and the parameter is base64; the text is the UTF-8 reading of the decoded bytes |
| BasicAuthentication.Credentials | EmailService/Infrastructure/Helpers/BasicAuthenticationHandler.cs:48-50 | a pair exactly when the decoded text holds a ':'; the username has no ':' and username ":" password is the decoded text |
| BasicAuthentication.HandleAuthenticate | EmailService/Infrastructure/Helpers/BasicAuthenticationHandler.cs:32-70 | anonymous endpoints give NoResult; a missing header gives "Missing Authorization Header"; undecodable credentials or a failing check give "Invalid Authorization Header"; a decoded pair exactly when the list lacks it gives "Invalid Username or Password"; a present header never gives "Missing Authorization Header"; success carries the ticket for the username |
| BasicAuthentication.AuthenticatedIff | EmailService/Infrastructure/Helpers/BasicAuthenticationHandler.cs:44-69 | a request is authenticated exactly when it is not anonymous and its header decodes to a text that holds a ':' and that the Basic list holds verbatim |
| BasicAuthentication.SchemeIgnored | EmailService/Infrastructure/Helpers/BasicAuthenticationHandler.cs:46-47 | headers whose parameters agree get the same outcome, whatever their schemes |
| BasicAuthentication.AnonymousIgnoresHeader | EmailService/Infrastructure/Helpers/BasicAuthenticationHandler.cs:36-37 | for an anonymous endpoint the header, the list and the platform make no difference |
| BasicAuthentication.MissingHeaderFirst | EmailService/Infrastructure/Helpers/BasicAuthenticationHandler.cs:39-40 | a missing header fails with "Missing Authorization Header", whatever the list or the platform |
| BasicAuthentication.EncodedCredentialsRoundTrip | EmailService/Infrastructure/Helpers/BasicAuthenticationHandler.cs:46-69 | a header carrying base64 of the UTF-8 of "username:password", with no ':' in the username, authenticates as that username exactly when the list holds the pair, and is otherwise refused with "Invalid Username or Password" |
| BasicAuthentication.NoColonIsInvalidHeader | EmailService/Infrastructure/Helpers/BasicAuthenticationHandler.cs:48-56 | a decoded text with no ':' is an invalid header, never a wrong password |
| ExceptionMiddleware.ErrorEnvelope | EmailService/Infrastructure/Middlewares/CustomExceptionMiddleware.cs:40 | Succeeded false, Code 500, Message the exception's message verbatim, Errors empty, Data null |
| ExceptionMiddleware.EnvelopeIgnoresKind | EmailService/Infrastructure/Middlewares/CustomExceptionMiddleware.cs:35-40 | exceptions with the same message get the same envelope, whatever their kind |
| ExceptionMiddleware.HttpResponse.constructor | EmailService/Infrastructure/Middlewares/CustomExceptionMiddleware.cs:21 | the response the pipeline starts from: status 200, no content type, empty body, not started |
| ExceptionMiddleware.HttpResponse.SetContentType | EmailService/Infrastructure/Middlewares/CustomExceptionMiddleware.cs:41 | sets the content type, or throws InvalidOperation once the response has started |
| ExceptionMiddleware.HttpResponse.SetStatusCode | EmailService/Infrastructure/Middlewares/CustomExceptionMiddleware.cs:42 | sets the status code, or throws InvalidOperation once the response has started |
| ExceptionMiddleware.HttpResponse.Write | EmailService/Infrastructure/Middlewares/CustomExceptionMiddleware.cs:43 | appends the envelope to the body and starts the response |
| ExceptionMiddleware.HandleExceptionAsync | EmailService/Infrastructure/Middlewares/CustomExceptionMiddleware.cs:33-44 | on a fresh response: content type application/json, status 500, the envelope appended; on a started one: InvalidOperation and nothing changed |
| ExceptionMiddleware.Invoke | EmailService/Infrastructure/Middlewares/CustomExceptionMiddleware.cs:21-31 | normal completion leaves the response untouched; an exception is caught and not rethrown, turning a fresh response into the 500 envelope; on a started response exactly the handler's InvalidOperation escapes, and nothing else ever does |

## Left out

- Logging (`ILogger`, `Console.WriteLine`) has no effect on results. The chain walk in the
  certificate callback only logs, as do the host-name cast and the common-name lookup, so the
  callback's chain and certificate arguments are not examined.
- async/await is modelled sequentially. Concurrency between requests is not modelled: each
  request shares only read-only configuration.
- The network and the TLS handshake are not modelled. An `SmtpServer` value says how each
  call is answered, and a handshake refused by the callback raises one given exception.
  MailKit's own default validation under STARTTLS is part of the server's answer.
- From MimeKit:
  - serialisation is not modelled: the part's wire text is its base64 encoding, and line
    wrapping is covered by `Base64.DecodeAnyLineBreaks`;
  - `MailboxAddress.Parse` is an uninterpreted parameter;
  - `BodyBuilder.ToMessageBody` is represented by the `Body` record.
- Stream copying from `IFormFile` is represented by the file's name and its whole content.
- From ASP.NET:
  - `AuthenticationHeaderValue.Parse` and `Encoding.UTF8.GetString` are uninterpreted
    parameters;
  - header name matching, and the joining of several Authorization values into one string,
    are taken as done: the request holds the header's text or None;
  - endpoint metadata lookup is reduced to one flag.
- Newtonsoft JSON serialisation is not modelled. The response body holds the envelopes
  written to it.
- The texts of exceptions raised by the runtime and the libraries are a parameter
  (`RuntimeMessages`). Only the API's own messages are constants.
- `Subject` and `MailMessage` are `[Required]` and taken as present. Assigning null to them
  is not modelled.
- The controller (`EmailController.cs`), dependency-injection wiring
  (`RegisterAuthentication.cs`, `RegisterSettings.cs`, `RegisterServices.cs`) and the
  interfaces (`IMailService.cs`, `IServiceRegistration.cs`) are not part of this model.
- Smtp.ConnectResult: the callback is consulted before the server's answer, so a server that
  cannot be reached while the certificate is faulty is reported as a refused handshake. In
  MailKit the callback only runs once a TLS handshake is under way.
- MailService.SslCertificateValidationCallback: the common-name lookup only logs, so the
  model does not capture that it throws NullReferenceException when NameMismatch is set
  without NotAvailable and the certificate is null.
- Smtp.SmtpClient.Disconnect: a connected client reports the server's answer to QUIT as an
  error. MailKit's `Disconnect(quit: true)` swallows command, protocol and I/O failures of
  QUIT and closes the socket anyway. The model therefore allows a delivery to fail after a
  successful Send, which MailKit does not; no proved property depends on it.
- `ServerAddress`, `Username` and `Password` are taken as non-null strings. With a null
  username, MailKit's Authenticate throws ArgumentNullException before it checks the
  connection. Either way the request ends in "Internal server error.".
- ExceptionMiddleware.Invoke: the downstream pipeline is represented by how it ended and the
  response state it left. What it wrote before throwing is not modelled.
