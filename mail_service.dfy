/** EmailService.Services.MailService: the credential check, the composition of a MIME
    message from a request, the SMTP delivery sequence, the server certificate decision and
    the way the two send operations turn every failure into one API error. */
module MailService {

  import opened Exceptions
  import opened Text
  import opened Base64
  import opened Mime
  import opened Settings
  import opened Requests
  import opened Responses
  import opened Smtp

  /** The message of the ApiException every failure of the service becomes. */
  const InternalError := "Internal server error."
  /** The Data of the success envelope. */
  const SentText := "Successfully sent email"

  /** The library behaviour the service relies on but the model does not define:
      MailboxAddress.Parse (None where it throws ParseException), the address check of the
      MailboxAddress(name, address) constructor (false where it throws ParseException) and
      the texts of the exceptions the runtime and the libraries raise. */
  datatype Library = Library(parseMailbox: string -> Option<Mailbox>, acceptsAddress: string -> bool,
                             messages: RuntimeMessages)

  function Raised(lib: Library, kind: ExceptionKind): Exception {
    Exception(kind, lib.messages(kind))
  }

  // ------------------------------------------------------------ BasicAuthenticate

  /** List<string>.Contains: string equality, ordinal and case-sensitive. */
  function Contains(list: seq<string>, s: string): (r: bool)
    ensures r <==> s in list
  {
    if list == [] then false else list[0] == s || Contains(list[1..], s)
  }

  /** `_authKeys.Basic.ToList().Contains($"{username}:{password}")`. A missing Basic list
      makes ToList throw, and the catch turns that into ApiException("Internal server error."). */
  function BasicAuthenticate(keys: AuthKeys, username: string, password: string): (r: Outcome<bool>)
    ensures keys.basic.None? ==> r == Threw(ApiError(InternalError))
    ensures keys.basic.Some? ==> r == Returned(username + ":" + password in keys.basic.value)
  {
    match keys.basic
    case None => Threw(ApiError(InternalError))
    case Some(list) => Returned(Contains(list, username + ":" + password))
  }

  /** The decision depends on the joined string alone: two pairs that join to the same
      "user:pass" text get the same answer, however the colon is placed. */
  lemma BasicAuthenticateJoined(keys: AuthKeys, u1: string, p1: string, u2: string, p2: string)
    requires u1 + ":" + p1 == u2 + ":" + p2
    ensures BasicAuthenticate(keys, u1, p1) == BasicAuthenticate(keys, u2, p2)
  {
  }

  // ------------------------------------------------------------ ConvertMimeMessage

  /** `a ?? b`: the left operand unless it is null. */
  function Coalesce<T>(a: Option<T>, b: Option<T>): (r: Option<T>)
    ensures a.Some? ==> r == a
    ensures a.None? ==> r == b
  {
    if a.Some? then a else b
  }

  /** `new MailboxAddress(displayName ?? config.DisplayName, from ?? config.From)`. Only null
      falls back to the configuration: an empty From or DisplayName is kept. MimeKit refuses
      a null address with ArgumentNullException and a malformed one with ParseException. */
  function Sender(lib: Library, config: MailServerConfig, displayName: Option<string>, from: Option<string>): (r: Outcome<Mailbox>)
    ensures from.None? && config.from.None? ==> r == Threw(Raised(lib, ArgumentNull))
    ensures from.Some? ==> (r.Returned? <==> lib.acceptsAddress(from.value))
    ensures from.None? && config.from.Some? ==> (r.Returned? <==> lib.acceptsAddress(config.from.value))
    ensures from.Some? && r.Returned? ==> r.value.address == from.value
    ensures from.None? && r.Returned? ==> r.value.address == config.from.value
    ensures displayName.Some? && r.Returned? ==> r.value.name == displayName
    ensures displayName.None? && r.Returned? ==> r.value.name == config.displayName
    ensures (from.Some? || config.from.Some?) && r.Threw? ==> r.exception == Raised(lib, MimeParse)
  {
    match Coalesce(from, config.from)
    case None => Threw(Raised(lib, ArgumentNull))
    case Some(address) =>
      if lib.acceptsAddress(address) then Returned(Mailbox(Coalesce(displayName, config.displayName), address))
      else Threw(Raised(lib, MimeParse))
  }

  /** `MailboxAddress.Parse(to.Trim())`: a null `to` fails on Trim, an unparsable one in Parse. */
  function Recipient(lib: Library, to: Option<string>): (r: Outcome<Mailbox>)
    ensures to.None? ==> r == Threw(Raised(lib, NullReference))
    ensures to.Some? ==> (r.Returned? <==> lib.parseMailbox(Trim(to.value)).Some?)
    ensures to.Some? && r.Returned? ==> r.value == lib.parseMailbox(Trim(to.value)).value
    ensures to.Some? && r.Threw? ==> r.exception == Raised(lib, MimeParse)
  {
    match to
    case None => Threw(Raised(lib, NullReference))
    case Some(t) =>
      match lib.parseMailbox(Trim(t))
      case None => Threw(Raised(lib, MimeParse))
      case Some(m) => Returned(m)
  }

  /** The Cc (or Bcc) list: empty when the value is null, empty or white space, otherwise the
      one mailbox parsed from the trimmed value, or the parse failure. */
  function OptionalRecipient(lib: Library, value: Option<string>): (r: Outcome<seq<Mailbox>>)
    ensures IsNullOrWhiteSpace(value) ==> r == Returned([])
    ensures !IsNullOrWhiteSpace(value) ==> (r.Returned? <==> lib.parseMailbox(Trim(value.value)).Some?)
    ensures !IsNullOrWhiteSpace(value) && r.Returned? ==> r.value == [lib.parseMailbox(Trim(value.value)).value]
    ensures !IsNullOrWhiteSpace(value) && r.Threw? ==> r.exception == Raised(lib, MimeParse)
  {
    if IsNullOrWhiteSpace(value) then Returned([])
    else
      match lib.parseMailbox(Trim(value.value))
      case None => Threw(Raised(lib, MimeParse))
      case Some(m) => Returned([m])
  }

  /** The part built for one uploaded file: application/octet-stream, an attachment, sent
      in base64, carrying the file's name and its whole content, which its wire text decodes
      back to. */
  function AttachmentPart(file: FormFile): (p: MimePart)
    ensures p.mediaType == "application" && p.mediaSubtype == "octet-stream"
    ensures p.disposition == "attachment" && p.transferEncoding == Base64Encoding
    ensures p.fileName == file.fileName && p.content == file.content
    ensures Decode(WireText(p)) == Some(file.content)
  {
    MimePart("application", "octet-stream", "attachment", Base64Encoding, DefaultEncoding, file.fileName, file.content)
  }

  /** One part per file, in the order of the files. */
  function Parts(files: seq<FormFile>): (r: seq<MimePart>)
    ensures |r| == |files|
    ensures forall i :: 0 <= i < |files| ==> r[i] == AttachmentPart(files[i])
  {
    if files == [] then []
    else Parts(files[..|files| - 1]) + [AttachmentPart(files[|files| - 1])]
  }

  /** A null file list yields no parts. */
  function Attachments(files: Option<seq<FormFile>>): (r: seq<MimePart>)
    ensures files.None? ==> r == []
    ensures files.Some? ==> r == Parts(files.value)
  {
    match files
    case None => []
    case Some(fs) => Parts(fs)
  }

  /** The message ConvertMimeMessage builds, or the exception it throws first. */
  function Compose(lib: Library, config: MailServerConfig, displayName: Option<string>, from: Option<string>,
                   to: Option<string>, cc: Option<string>, bcc: Option<string>, subject: string,
                   mailMessage: string, files: Option<seq<FormFile>>): (r: Outcome<MimeMessage>)
    // composition succeeds exactly when the sender, the To and any Cc and Bcc all succeed
    ensures r.Returned? <==>
      && Sender(lib, config, displayName, from).Returned?
      && Recipient(lib, to).Returned?
      && OptionalRecipient(lib, cc).Returned?
      && OptionalRecipient(lib, bcc).Returned?
    // the first failing step decides the exception
    ensures Sender(lib, config, displayName, from).Threw? ==> r == Threw(Sender(lib, config, displayName, from).exception)
    ensures Sender(lib, config, displayName, from).Returned? && Recipient(lib, to).Threw? ==> r == Threw(Recipient(lib, to).exception)
    ensures Sender(lib, config, displayName, from).Returned? && Recipient(lib, to).Returned?
            && OptionalRecipient(lib, cc).Threw?
            ==> r == Threw(Raised(lib, MimeParse))
    ensures Sender(lib, config, displayName, from).Returned? && Recipient(lib, to).Returned?
            && OptionalRecipient(lib, cc).Returned? && OptionalRecipient(lib, bcc).Threw?
            ==> r == Threw(Raised(lib, MimeParse))
    ensures r.Returned? ==>
      var m := r.value;
      && m.from == [Sender(lib, config, displayName, from).value]
      && m.to == [lib.parseMailbox(Trim(to.value)).value]
      && (IsNullOrWhiteSpace(cc) <==> m.cc == [])
      && (!IsNullOrWhiteSpace(cc) ==> m.cc == [lib.parseMailbox(Trim(cc.value)).value])
      && (IsNullOrWhiteSpace(bcc) <==> m.bcc == [])
      && (!IsNullOrWhiteSpace(bcc) ==> m.bcc == [lib.parseMailbox(Trim(bcc.value)).value])
      && m.subject == subject
      && m.body.htmlBody == mailMessage
      && |m.body.attachments| == (if files.None? then 0 else |files.value|)
      && (forall i :: 0 <= i < |m.body.attachments| ==> m.body.attachments[i] == AttachmentPart(files.value[i]))
  {
    match Sender(lib, config, displayName, from)
    case Threw(e) => Threw(e)
    case Returned(sender) =>
      match Recipient(lib, to)
      case Threw(e) => Threw(e)
      case Returned(recipient) =>
        match OptionalRecipient(lib, cc)
        case Threw(e) => Threw(e)
        case Returned(ccList) =>
          match OptionalRecipient(lib, bcc)
          case Threw(e) => Threw(e)
          case Returned(bccList) =>
            Returned(MimeMessage([sender], [recipient], ccList, bccList, subject, Body(mailMessage, Attachments(files))))
  }

  /** ConvertMimeMessage's loop over the form files: one part appended to the body's attachments per file, in
      order; no files at all when the list is null. */
  method AttachFiles(files: Option<seq<FormFile>>) returns (attachments: seq<MimePart>)
    ensures attachments == Attachments(files)
  {
    attachments := [];
    if files.Some? {
      var fs := files.value;
      for i := 0 to |fs|
        invariant attachments == Parts(fs[..i])
      {
        PartsSnoc(fs, i);
        attachments := attachments + [AttachmentPart(fs[i])];
      }
      assert fs[..|fs|] == fs;
    }
  }

  /** ConvertMimeMessage: adds the sender, the To, the optional Cc and Bcc, sets subject and
      HTML body, then appends one attachment part per file. */
  method ConvertMimeMessage(lib: Library, config: MailServerConfig, displayName: Option<string>, from: Option<string>,
                            to: Option<string>, cc: Option<string>, bcc: Option<string>, subject: string,
                            mailMessage: string, files: Option<seq<FormFile>>) returns (r: Outcome<MimeMessage>)
    ensures r == Compose(lib, config, displayName, from, to, cc, bcc, subject, mailMessage, files)
  {
    var sender := Sender(lib, config, displayName, from);
    if sender.Threw? {
      return Threw(sender.exception);
    }
    var fromList := [sender.value];
    var recipient := Recipient(lib, to);
    if recipient.Threw? {
      return Threw(recipient.exception);
    }
    var toList := [recipient.value];
    var ccList := AddOptional(lib, cc);
    if ccList.Threw? {
      return Threw(ccList.exception);
    }
    var bccList := AddOptional(lib, bcc);
    if bccList.Threw? {
      return Threw(bccList.exception);
    }
    var attachments := AttachFiles(files);
    r := Returned(MimeMessage(fromList, toList, ccList.value, bccList.value, subject, Body(mailMessage, attachments)));
  }

  /** One more file adds its part at the end. */
  lemma PartsSnoc(fs: seq<FormFile>, i: nat)
    requires i < |fs|
    ensures Parts(fs[..i + 1]) == Parts(fs[..i]) + [AttachmentPart(fs[i])]
  {
    assert fs[..i + 1][..i] == fs[..i];
  }

  /** The Cc and the Bcc block of ConvertMimeMessage: a list that stays empty for a blank
      value and otherwise receives the one parsed mailbox. */
  method AddOptional(lib: Library, value: Option<string>) returns (r: Outcome<seq<Mailbox>>)
    ensures r == OptionalRecipient(lib, value)
  {
    var list: seq<Mailbox> := [];
    if !IsNullOrWhiteSpace(value) {
      var m := lib.parseMailbox(Trim(value.value));
      if m.None? {
        return Threw(Raised(lib, MimeParse));
      }
      list := [m.value];
    }
    r := Returned(list);
  }

  // ------------------------------------------------------------ SslCertificateValidationCallback

  /** Which branch of the callback is taken, and so what it logs. */
  datatype CertificateCheck = Valid | CertificateNotAvailable | NameMismatch | ChainErrors

  /** The flag tests in the callback's order: no error at all, then NotAvailable, then
      NameMismatch; whatever else is set is reported as chain errors. */
  function CheckCertificate(errors: SslPolicyErrors): (c: CertificateCheck)
    ensures c == Valid <==> errors == PolicyNone
    ensures c == CertificateNotAvailable <==> errors & RemoteCertificateNotAvailable != 0
    ensures c == NameMismatch <==>
      errors & RemoteCertificateNotAvailable == 0 && errors & RemoteCertificateNameMismatch != 0
    ensures c == ChainErrors <==>
      errors != PolicyNone && errors & (RemoteCertificateNotAvailable | RemoteCertificateNameMismatch) == 0
  {
    if errors == PolicyNone then Valid
    else if errors & RemoteCertificateNotAvailable != 0 then CertificateNotAvailable
    else if errors & RemoteCertificateNameMismatch != 0 then NameMismatch
    else ChainErrors
  }

  /** The custom callback accepts exactly when the platform reported no error; the host, the
      certificate and the chain only feed the log. */
  function SslCertificateValidationCallback(sender: string, certificate: Option<Certificate>,
                                            chain: seq<ChainElement>, errors: SslPolicyErrors): (accepted: bool)
    ensures accepted <==> errors == PolicyNone
  {
    CheckCertificate(errors) == Valid
  }

  /** A name mismatch is rejected whatever else the chain says; a missing certificate is
      reported before a name mismatch. */
  lemma CertificatePrecedence(errors: SslPolicyErrors)
    ensures errors & RemoteCertificateNameMismatch != 0 ==>
      !SslCertificateValidationCallback("", None, [], errors)
    ensures errors & RemoteCertificateNotAvailable != 0 ==> CheckCertificate(errors) == CertificateNotAvailable
    ensures CheckCertificate(RemoteCertificateNotAvailable | RemoteCertificateNameMismatch) == CertificateNotAvailable
    ensures CheckCertificate(RemoteCertificateNameMismatch | RemoteCertificateChainErrors) == NameMismatch
    ensures CheckCertificate(RemoteCertificateChainErrors) == ChainErrors
  {
  }

  // ------------------------------------------------------------ SendMailAsync

  /** The calls SendMailAsync makes when none of them fails: IsUseSsl selects SslOnConnect
      with the custom callback installed, otherwise IsUseStartTls selects StartTls without
      it, otherwise there is no Connect; then Authenticate, Send and Disconnect(quit: true). */
  function Plan(config: MailServerConfig, message: MimeMessage): (p: seq<SmtpCall>)
    ensures |p| == if config.isUseSsl || config.isUseStartTls then 4 else 3
    ensures p[|p| - 3..] == [AuthenticateCall(config.username, config.password), SendCall(message), DisconnectCall(true)]
    ensures config.isUseSsl ==> p[0] == ConnectCall(config.serverAddress, config.port, SslOnConnect, true)
    ensures !config.isUseSsl && config.isUseStartTls ==> p[0] == ConnectCall(config.serverAddress, config.port, StartTls, false)
    ensures p[0].ConnectCall? <==> config.isUseSsl || config.isUseStartTls
  {
    ConnectPlan(config) + [AuthenticateCall(config.username, config.password), SendCall(message), DisconnectCall(true)]
  }

  /** The Connect call the two flags select, if any: at most one, to the configured server,
      with SslOnConnect exactly under IsUseSsl and the custom callback exactly then. */
  function ConnectPlan(config: MailServerConfig): (p: seq<SmtpCall>)
    ensures |p| <= 1
    ensures p == [] <==> !config.isUseSsl && !config.isUseStartTls
    ensures forall i :: 0 <= i < |p| ==>
      && p[i].ConnectCall? && p[i].host == config.serverAddress && p[i].port == config.port
      && (p[i].options == SslOnConnect <==> config.isUseSsl)
      && (p[i].customValidation <==> p[i].options == SslOnConnect)
  {
    if config.isUseSsl then [ConnectCall(config.serverAddress, config.port, SslOnConnect, true)]
    else if config.isUseStartTls then [ConnectCall(config.serverAddress, config.port, StartTls, false)]
    else []
  }

  /** Connect is the first call or not made at all: with neither flag set the plan holds no
      Connect. */
  lemma PlanConnectsOnlyFirst(config: MailServerConfig, message: MimeMessage)
    ensures var p := Plan(config, message);
      forall i :: 1 <= i < |p| ==> !p[i].ConnectCall?
    ensures var p := Plan(config, message);
      (forall i :: 0 <= i < |p| ==> !p[i].ConnectCall?) <==> !config.isUseSsl && !config.isUseStartTls
  {
    var p := Plan(config, message);
    var n := |p|;
    assert p[n - 3..][0] == p[n - 3] && p[n - 3..][1] == p[n - 2] && p[n - 3..][2] == p[n - 1];
  }

  /** How one call ends, given whether the client is connected (see Smtp.SmtpClient). A
      second Connect is refused; Authenticate and Send without a connection never reach the
      server; Disconnect without one does nothing. Under the custom callback a certificate
      with any fault is refused in the handshake. Every other call gets the server's answer. */
  function CallResult(server: SmtpServer, messages: RuntimeMessages, connected: bool, call: SmtpCall): (r: Option<Exception>)
    ensures connected && call.ConnectCall? ==> r == Some(Exception(InvalidOperation, messages(InvalidOperation)))
    ensures !connected && (call.AuthenticateCall? || call.SendCall?)
            ==> r == Some(Exception(ServiceNotConnected, messages(ServiceNotConnected)))
    ensures !connected && call.DisconnectCall? ==> r.None?
    ensures !connected && call.ConnectCall? && call.customValidation && server.handshake.policyErrors != PolicyNone
            ==> r == Some(server.handshakeRefused)
    ensures !connected && call.ConnectCall? && (!call.customValidation || server.handshake.policyErrors == PolicyNone)
            ==> r == server.respond(call)
    ensures connected && !call.ConnectCall? ==> r == server.respond(call)
  {
    match call
    case ConnectCall(_, _, _, custom) =>
      if connected then Some(Exception(InvalidOperation, messages(InvalidOperation)))
      else ConnectResult(server, call, if custom then Some(SslCertificateValidationCallback) else None)
    case AuthenticateCall(_, _) =>
      if !connected then Some(Exception(ServiceNotConnected, messages(ServiceNotConnected))) else server.respond(call)
    case SendCall(_) =>
      if !connected then Some(Exception(ServiceNotConnected, messages(ServiceNotConnected))) else server.respond(call)
    case DisconnectCall(_) =>
      if !connected then None else server.respond(call)
  }

  /** Whether the client is connected after `call` ended with `error`: a Connect that
      succeeds connects (a refused second one leaves the connection up), Disconnect always
      disconnects, and the other calls leave the state alone, failed or not. */
  function ConnectedAfter(connected: bool, call: SmtpCall, error: Option<Exception>): (r: bool)
    ensures call.ConnectCall? ==> (r <==> connected || error.None?)
    ensures call.DisconnectCall? ==> !r
    ensures call.AuthenticateCall? || call.SendCall? ==> r == connected
  {
    match call
    case ConnectCall(_, _, _, _) => connected || error.None?
    case DisconnectCall(_) => false
    case _ => connected
  }

  /** The calls made when `plan` is run from the given state, and the exception of the call
      that stopped it. The calls are a prefix of the plan, the whole plan when nothing failed,
      and at least one call when something did; RunStopsAtFirstFailure says which call. */
  function Run(server: SmtpServer, messages: RuntimeMessages, connected: bool, plan: seq<SmtpCall>): (r: (seq<SmtpCall>, Option<Exception>))
    ensures r.0 <= plan
    ensures r.1.None? ==> r.0 == plan
    ensures r.1.Some? ==> |r.0| > 0
    decreases |plan|
  {
    if plan == [] then ([], None)
    else
      var error := CallResult(server, messages, connected, plan[0]);
      if error.Some? then ([plan[0]], error)
      else
        var rest := Run(server, messages, ConnectedAfter(connected, plan[0], error), plan[1..]);
        ([plan[0]] + rest.0, rest.1)
  }

  /** Whether the client is connected after `calls` were made in order from `connected`. */
  function StateAfter(server: SmtpServer, messages: RuntimeMessages, connected: bool, calls: seq<SmtpCall>): bool
    decreases |calls|
  {
    if calls == [] then connected
    else
      var error := CallResult(server, messages, connected, calls[0]);
      StateAfter(server, messages, ConnectedAfter(connected, calls[0], error), calls[1..])
  }

  /** How the k-th of `calls` ends when the ones before it were made first. */
  function ResultAt(server: SmtpServer, messages: RuntimeMessages, connected: bool, calls: seq<SmtpCall>, k: nat): Option<Exception>
    requires k < |calls|
  {
    CallResult(server, messages, StateAfter(server, messages, connected, calls[..k]), calls[k])
  }

  /** A run stops at its first failure: every call before the last one made succeeded, and
      the exception reported is the one the last call raised in the state the earlier calls
      left. With no exception, every call succeeded. */
  lemma {:induction false} RunStopsAtFirstFailure(server: SmtpServer, messages: RuntimeMessages, connected: bool, plan: seq<SmtpCall>)
    ensures var r := Run(server, messages, connected, plan);
      forall k :: 0 <= k < |r.0| - 1 ==> ResultAt(server, messages, connected, r.0, k).None?
    ensures var r := Run(server, messages, connected, plan);
      r.1.None? ==> forall k :: 0 <= k < |r.0| ==> ResultAt(server, messages, connected, r.0, k).None?
    ensures var r := Run(server, messages, connected, plan);
      r.1.Some? ==> r.1 == ResultAt(server, messages, connected, r.0, |r.0| - 1)
    decreases |plan|
  {
    if plan != [] {
      var error := CallResult(server, messages, connected, plan[0]);
      if error.Some? {
        assert Run(server, messages, connected, plan) == ([plan[0]], error);
        assert [plan[0]][..0] == [];
      } else {
        var next := ConnectedAfter(connected, plan[0], error);
        RunStopsAtFirstFailure(server, messages, next, plan[1..]);
        var rest := Run(server, messages, next, plan[1..]);
        var calls := [plan[0]] + rest.0;
        assert Run(server, messages, connected, plan) == (calls, rest.1);
        assert calls[..0] == [];
        forall k | 1 <= k < |calls|
          ensures ResultAt(server, messages, connected, calls, k) == ResultAt(server, messages, next, rest.0, k - 1)
        {
          ResultAtCons(server, messages, connected, plan[0], rest.0, k);
        }
      }
    }
  }

  /** The calls after the first one end as they would if the first one's outcome had been
      the starting state. */
  lemma ResultAtCons(server: SmtpServer, messages: RuntimeMessages, connected: bool, call: SmtpCall,
                     rest: seq<SmtpCall>, k: nat)
    requires 1 <= k <= |rest|
    ensures ResultAt(server, messages, connected, [call] + rest, k)
         == ResultAt(server, messages, ConnectedAfter(connected, call, CallResult(server, messages, connected, call)), rest, k - 1)
  {
    var calls := [call] + rest;
    assert calls[..k][0] == call;
    assert calls[..k][1..] == rest[..k - 1];
    assert calls[k] == rest[k - 1];
  }

  /** After `calls` have been made and `plan` is left, running the rest from `connected`
      completes the delivery of `whole`; once `error` is raised, the delivery is over. */
  ghost predicate Tracks(server: SmtpServer, messages: RuntimeMessages, whole: seq<SmtpCall>,
                         calls: seq<SmtpCall>, connected: bool, plan: seq<SmtpCall>, error: Option<Exception>)
  {
    var rest := Run(server, messages, connected, plan);
    Run(server, messages, false, whole) == if error.None? then (calls + rest.0, rest.1) else (calls, error)
  }

  /** Making the next call of the plan keeps `Tracks`. */
  lemma Advance(server: SmtpServer, messages: RuntimeMessages, whole: seq<SmtpCall>,
                calls: seq<SmtpCall>, connected: bool, plan: seq<SmtpCall>)
    requires plan != [] && Tracks(server, messages, whole, calls, connected, plan, None)
    ensures var error := CallResult(server, messages, connected, plan[0]);
      Tracks(server, messages, whole, calls + [plan[0]], ConnectedAfter(connected, plan[0], error), plan[1..], error)
  {
    var error := CallResult(server, messages, connected, plan[0]);
    var rest := Run(server, messages, ConnectedAfter(connected, plan[0], error), plan[1..]);
    assert calls + ([plan[0]] + rest.0) == calls + [plan[0]] + rest.0;
  }

  /** The calls and the outcome of delivering `message` over a fresh client: at least one
      call is made, the calls are a prefix of the plan, and all of it when nothing failed. */
  function Delivery(config: MailServerConfig, server: SmtpServer, messages: RuntimeMessages, message: MimeMessage): (r: (seq<SmtpCall>, Option<Exception>))
    ensures 0 < |r.0| && r.0 <= Plan(config, message)
    ensures r.1.None? ==> r.0 == Plan(config, message)
  {
    Run(server, messages, false, Plan(config, message))
  }

  /** Send is only ever attempted after Authenticate, and Disconnect only after Send. */
  lemma SendFollowsAuthenticate(config: MailServerConfig, server: SmtpServer, messages: RuntimeMessages, message: MimeMessage)
    ensures var calls := Delivery(config, server, messages, message).0;
      && (SendCall(message) in calls ==> AuthenticateCall(config.username, config.password) in calls)
      && (DisconnectCall(true) in calls ==> SendCall(message) in calls)
  {
    var plan := Plan(config, message);
    var calls := Delivery(config, server, messages, message).0;
    var n := |plan|;
    assert plan[n - 3] == AuthenticateCall(config.username, config.password);
    assert plan[n - 2] == SendCall(message);
    assert plan[n - 1] == DisconnectCall(true);
    if SendCall(message) in calls {
      var k :| 0 <= k < |calls| && calls[k] == SendCall(message);
      assert plan[k] == SendCall(message);
      assert k >= n - 2;
      assert calls[n - 3] == plan[n - 3];
    }
    if DisconnectCall(true) in calls {
      var k :| 0 <= k < |calls| && calls[k] == DisconnectCall(true);
      assert plan[k] == DisconnectCall(true);
      assert k == n - 1;
      assert calls[n - 2] == plan[n - 2];
    }
  }

  /** With neither IsUseSsl nor IsUseStartTls the client is never connected, so MailKit
      refuses Authenticate and the message is never sent. */
  lemma NoTransportNeverDelivers(config: MailServerConfig, server: SmtpServer, messages: RuntimeMessages, message: MimeMessage)
    requires !config.isUseSsl && !config.isUseStartTls
    ensures Delivery(config, server, messages, message)
         == ([AuthenticateCall(config.username, config.password)],
             Some(Exception(ServiceNotConnected, messages(ServiceNotConnected))))
  {
  }

  /** Under IsUseSsl a certificate the platform found any fault with ends the delivery at
      Connect: nothing is authenticated or sent. */
  lemma FaultyCertificateStopsAtConnect(config: MailServerConfig, server: SmtpServer, messages: RuntimeMessages, message: MimeMessage)
    requires config.isUseSsl && server.handshake.policyErrors != PolicyNone
    ensures Delivery(config, server, messages, message)
         == ([ConnectCall(config.serverAddress, config.port, SslOnConnect, true)], Some(server.handshakeRefused))
  {
  }

  /** When a connection mode is configured, the certificate is acceptable (or not checked by
      the custom callback) and the server accepts every call, the whole plan runs and the
      delivery succeeds. */
  lemma DeliverySucceeds(config: MailServerConfig, server: SmtpServer, messages: RuntimeMessages, message: MimeMessage)
    requires config.isUseSsl || config.isUseStartTls
    requires config.isUseSsl ==> server.handshake.policyErrors == PolicyNone
    requires forall call :: server.respond(call).None?
    ensures Delivery(config, server, messages, message) == (Plan(config, message), None)
  {
    var plan := Plan(config, message);
    var tail := plan[1..];
    assert tail[1..] == [SendCall(message), DisconnectCall(true)];
    assert Run(server, messages, true, [DisconnectCall(true)]) == ([DisconnectCall(true)], None);
    assert Run(server, messages, true, tail[1..]) == (tail[1..], None);
    assert Run(server, messages, true, tail) == (tail, None);
  }

  /** The connection step of SendMailAsync: the mode the flags select. The custom certificate callback is
      installed for SslOnConnect only; with neither flag nothing is connected. Whatever calls
      follow, what has happened so far is the start of running the whole plan. */
  method OpenConnection(client: SmtpClient, config: MailServerConfig, ghost rest: seq<SmtpCall>)
    returns (error: Option<Exception>)
    requires !client.connected && client.calls == [] && client.certificateValidation.None?
    modifies client
    ensures Tracks(client.server, client.messages, ConnectPlan(config) + rest, client.calls, client.connected, rest, error)
    ensures client.disposed == old(client.disposed)
  {
    ghost var plan := ConnectPlan(config) + rest;
    error := None;
    assert [] + Run(client.server, client.messages, false, plan).0 == Run(client.server, client.messages, false, plan).0;
    assert Tracks(client.server, client.messages, plan, [], false, plan, None);
    if config.isUseSsl {
      client.SetCertificateValidation(SslCertificateValidationCallback);
      Advance(client.server, client.messages, plan, [], false, plan);
      error := client.Connect(config.serverAddress, config.port, SslOnConnect);
      assert plan[1..] == rest;
    } else if config.isUseStartTls {
      Advance(client.server, client.messages, plan, [], false, plan);
      error := client.Connect(config.serverAddress, config.port, StartTls);
      assert plan[1..] == rest;
    } else {
      assert plan == rest;
    }
  }

  /** SendMailAsync: selects the connection mode, makes the calls in order, stops at the
      first exception, and the `using` block releases the client on every path. */
  method SendMailAsync(config: MailServerConfig, message: MimeMessage, server: SmtpServer, messages: RuntimeMessages)
    returns (error: Option<Exception>, calls: seq<SmtpCall>, released: bool)
    ensures (calls, error) == Delivery(config, server, messages, message)
    ensures released
  {
    var client := new SmtpClient(server, messages);
    ghost var rest := [AuthenticateCall(config.username, config.password), SendCall(message), DisconnectCall(true)];
    ghost var plan := Plan(config, message);
    error := OpenConnection(client, config, rest);
    if error.None? {
      Advance(server, messages, plan, client.calls, client.connected, rest);
      error := client.Authenticate(config.username, config.password);
    }
    assert Tracks(server, messages, plan, client.calls, client.connected, rest[1..], error);
    if error.None? {
      Advance(server, messages, plan, client.calls, client.connected, rest[1..]);
      error := client.Send(message);
    }
    assert Tracks(server, messages, plan, client.calls, client.connected, rest[2..], error);
    if error.None? {
      Advance(server, messages, plan, client.calls, client.connected, rest[2..]);
      error := client.Disconnect(true);
    }
    assert Tracks(server, messages, plan, client.calls, client.connected, [], error);
    client.Dispose();
    calls := client.calls;
    released := client.disposed && !client.connected;
  }

  // ------------------------------------------------------------ SendHTMLMail, SendWithoutAttachment

  /** The envelope and the calls of a send, given the composition result: any exception,
      from composing or from delivering, becomes ApiException("Internal server error."). */
  function SendOutcome(config: MailServerConfig, server: SmtpServer, messages: RuntimeMessages,
                       composed: Outcome<MimeMessage>): (r: (Outcome<Response<string>>, seq<SmtpCall>))
    ensures r.0.Returned? ==> r.0.value == WithData(SentText)
    ensures r.0.Threw? ==> r.0.exception == ApiError(InternalError)
    ensures composed.Threw? ==> r.0.Threw? && r.1 == []
    ensures composed.Returned? ==> r.1 == Delivery(config, server, messages, composed.value).0
    ensures r.0.Returned? <==> composed.Returned? && Delivery(config, server, messages, composed.value).1.None?
  {
    match composed
    case Threw(_) => (Threw(ApiError(InternalError)), [])
    case Returned(message) =>
      var (calls, error) := Delivery(config, server, messages, message);
      (if error.None? then Returned(WithData(SentText)) else Threw(ApiError(InternalError)), calls)
  }

  method SendHTMLMail(lib: Library, config: MailServerConfig, server: SmtpServer, request: SendHTMLRequest)
    returns (r: Outcome<Response<string>>, calls: seq<SmtpCall>)
    ensures (r, calls) == SendOutcome(config, server, lib.messages,
      Compose(lib, config, request.displayName, request.from, request.to, request.cc, request.bcc,
              request.subject, request.mailMessage, request.attachments))
  {
    var composed := ConvertMimeMessage(lib, config, request.displayName, request.from, request.to, request.cc,
                                       request.bcc, request.subject, request.mailMessage, request.attachments);
    if composed.Threw? {
      return Threw(ApiError(InternalError)), [];
    }
    var error, sent, _ := SendMailAsync(config, composed.value, server, lib.messages);
    calls := sent;
    if error.Some? {
      return Threw(ApiError(InternalError)), calls;
    }
    r := Returned(WithData(SentText));
  }

  method SendWithoutAttachment(lib: Library, config: MailServerConfig, server: SmtpServer, request: SendWithoutAttachmentRequest)
    returns (r: Outcome<Response<string>>, calls: seq<SmtpCall>)
    ensures (r, calls) == SendOutcome(config, server, lib.messages,
      Compose(lib, config, request.displayName, request.from, request.to, request.cc, request.bcc,
              request.subject, request.mailMessage, None))
    ensures forall i :: 0 <= i < |calls| && calls[i].SendCall? ==> calls[i].message.body.attachments == []
  {
    var composed := ConvertMimeMessage(lib, config, request.displayName, request.from, request.to, request.cc,
                                       request.bcc, request.subject, request.mailMessage, None);
    if composed.Threw? {
      return Threw(ApiError(InternalError)), [];
    }
    var error, sent, _ := SendMailAsync(config, composed.value, server, lib.messages);
    calls := sent;
    assert calls <= Plan(config, composed.value);
    if error.Some? {
      return Threw(ApiError(InternalError)), calls;
    }
    r := Returned(WithData(SentText));
  }

  /** A request whose To is null, or does not parse, is refused before any SMTP call, with
      the generic API error. */
  lemma BadRecipientSendsNothing(lib: Library, config: MailServerConfig, server: SmtpServer, request: SendHTMLRequest)
    requires request.to.None? || lib.parseMailbox(Trim(request.to.value)).None?
    ensures var r := SendOutcome(config, server, lib.messages,
      Compose(lib, config, request.displayName, request.from, request.to, request.cc, request.bcc,
              request.subject, request.mailMessage, request.attachments));
      r.0 == Threw(ApiError(InternalError)) && r.1 == []
  {
  }
}
