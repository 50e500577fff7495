/** The MailKit SmtpClient as the service drives it. The network and the server are not
    modelled: an `SmtpServer` value says how the server answers each call, and what the
    TLS handshake presents to the certificate validation callback. */
module Smtp {

  import opened Exceptions
  import opened Mime

  /** The two SecureSocketOptions the service passes to Connect. */
  datatype SecureSocketOptions = SslOnConnect | StartTls

  /** System.Net.Security.SslPolicyErrors, a [Flags] enumeration. */
  type SslPolicyErrors = bv32
  const PolicyNone: SslPolicyErrors := 0
  const RemoteCertificateNotAvailable: SslPolicyErrors := 1
  const RemoteCertificateNameMismatch: SslPolicyErrors := 2
  const RemoteCertificateChainErrors: SslPolicyErrors := 4

  /** An X.509 certificate as far as the callback looks at it. */
  datatype Certificate = Certificate(subject: string, simpleName: Option<string>)

  /** One element of the validated chain, with the status texts of its errors. */
  datatype ChainElement = ChainElement(certificate: Certificate, status: seq<string>)

  /** RemoteCertificateValidationCallback: host name, leaf certificate, chain and the
      platform's verdict in, accept or reject out. */
  type ValidationCallback = (string, Option<Certificate>, seq<ChainElement>, SslPolicyErrors) -> bool

  /** What the server's TLS handshake hands to the validation callback. */
  datatype Handshake = Handshake(
    certificate: Option<Certificate>,
    chain: seq<ChainElement>,
    policyErrors: SslPolicyErrors)

  /** The calls the service makes on the client, in the order it makes them. `customValidation`
      records whether the service's own callback was installed when Connect was called. */
  datatype SmtpCall =
    | ConnectCall(host: string, port: int, options: SecureSocketOptions, customValidation: bool)
    | AuthenticateCall(username: string, password: string)
    | SendCall(message: MimeMessage)
    | DisconnectCall(quit: bool)

  /** The far side: the handshake it presents, how it answers each call that reaches it
      (None: accepted), and the exception MailKit raises when the callback refuses the
      certificate. */
  datatype SmtpServer = SmtpServer(
    handshake: Handshake,
    respond: SmtpCall -> Option<Exception>,
    handshakeRefused: Exception)

  /** Outcome of Connect: an installed callback that refuses the certificate aborts the
      handshake; otherwise the server (and MailKit's default validation) decide. */
  function ConnectResult(server: SmtpServer, call: SmtpCall, callback: Option<ValidationCallback>): (r: Option<Exception>)
    requires call.ConnectCall?
    ensures callback.Some?
            && !callback.value(call.host, server.handshake.certificate, server.handshake.chain, server.handshake.policyErrors)
            ==> r == Some(server.handshakeRefused)
    ensures callback.None?
            || callback.value(call.host, server.handshake.certificate, server.handshake.chain, server.handshake.policyErrors)
            ==> r == server.respond(call)
  {
    match callback
    case Some(validate) =>
      var h := server.handshake;
      if !validate(call.host, h.certificate, h.chain, h.policyErrors) then Some(server.handshakeRefused)
      else server.respond(call)
    case None => server.respond(call)
  }

  class SmtpClient {
    const server: SmtpServer
    const messages: RuntimeMessages
    var certificateValidation: Option<ValidationCallback>
    var connected: bool
    var disposed: bool
    /** Every call made on this client so far. */
    var calls: seq<SmtpCall>

    constructor (server: SmtpServer, messages: RuntimeMessages)
      ensures this.server == server && this.messages == messages
      ensures certificateValidation.None? && !connected && !disposed && calls == []
    {
      this.server := server;
      this.messages := messages;
      certificateValidation := None;
      connected := false;
      disposed := false;
      calls := [];
    }

    /** client.ServerCertificateValidationCallback = callback */
    method SetCertificateValidation(callback: ValidationCallback)
      modifies this
      ensures certificateValidation == Some(callback)
      ensures connected == old(connected) && disposed == old(disposed) && calls == old(calls)
    {
      certificateValidation := Some(callback);
    }

    /** A client that is already connected refuses to connect again. */
    method Connect(host: string, port: int, options: SecureSocketOptions) returns (error: Option<Exception>)
      modifies this
      ensures var call := ConnectCall(host, port, options, old(certificateValidation).Some?);
        && calls == old(calls) + [call]
        && error == (if old(connected) then Some(Exception(InvalidOperation, messages(InvalidOperation)))
                     else ConnectResult(server, call, old(certificateValidation)))
      ensures connected == (old(connected) || error.None?)
      ensures certificateValidation == old(certificateValidation) && disposed == old(disposed)
    {
      var call := ConnectCall(host, port, options, certificateValidation.Some?);
      calls := calls + [call];
      if connected {
        error := Some(Exception(InvalidOperation, messages(InvalidOperation)));
      } else {
        error := ConnectResult(server, call, certificateValidation);
        connected := error.None?;
      }
    }

    /** Authenticate and Send need a connection; without one MailKit raises
        ServiceNotConnectedException and nothing reaches the server. */
    method Authenticate(username: string, password: string) returns (error: Option<Exception>)
      modifies this
      ensures calls == old(calls) + [AuthenticateCall(username, password)]
      ensures error == (if !old(connected) then Some(Exception(ServiceNotConnected, messages(ServiceNotConnected)))
                        else server.respond(AuthenticateCall(username, password)))
      ensures connected == old(connected) && certificateValidation == old(certificateValidation)
      ensures disposed == old(disposed)
    {
      calls := calls + [AuthenticateCall(username, password)];
      if !connected {
        error := Some(Exception(ServiceNotConnected, messages(ServiceNotConnected)));
      } else {
        error := server.respond(AuthenticateCall(username, password));
      }
    }

    method Send(message: MimeMessage) returns (error: Option<Exception>)
      modifies this
      ensures calls == old(calls) + [SendCall(message)]
      ensures error == (if !old(connected) then Some(Exception(ServiceNotConnected, messages(ServiceNotConnected)))
                        else server.respond(SendCall(message)))
      ensures connected == old(connected) && certificateValidation == old(certificateValidation)
      ensures disposed == old(disposed)
    {
      calls := calls + [SendCall(message)];
      if !connected {
        error := Some(Exception(ServiceNotConnected, messages(ServiceNotConnected)));
      } else {
        error := server.respond(SendCall(message));
      }
    }

    /** Disconnect(quit): with quit set, QUIT is sent before the socket closes. On a client
        that is not connected it does nothing. */
    method Disconnect(quit: bool) returns (error: Option<Exception>)
      modifies this
      ensures calls == old(calls) + [DisconnectCall(quit)]
      ensures error == (if !old(connected) then None else server.respond(DisconnectCall(quit)))
      ensures !connected
      ensures certificateValidation == old(certificateValidation) && disposed == old(disposed)
    {
      calls := calls + [DisconnectCall(quit)];
      if connected {
        error := server.respond(DisconnectCall(quit));
      } else {
        error := None;
      }
      connected := false;
    }

    /** The end of the `using` block: the socket is released, with or without QUIT. */
    method Dispose()
      modifies this
      ensures disposed && !connected
      ensures calls == old(calls) && certificateValidation == old(certificateValidation)
    {
      disposed := true;
      connected := false;
    }
  }
}
