/** EmailService.Infrastructure.Helpers.BasicAuthenticationHandler: the ASP.NET
    authentication handler that reads HTTP Basic credentials (the "user:pass" text, base64
    encoded, as the parameter of the Authorization header) and checks them against the
    configured list through MailService.BasicAuthenticate. The handler does not answer a
    failure with AuthenticateResult.Fail: it throws an ApiException, so its three failures are
    three exception messages. */
module BasicAuthentication {

  import opened Exceptions
  import opened Text
  import opened Base64
  import opened Settings
  import MailService

  const MissingHeader := "Missing Authorization Header"
  const InvalidHeader := "Invalid Authorization Header"
  const InvalidCredentials := "Invalid Username or Password"

  /** System.Net.Http.Headers.AuthenticationHeaderValue: a scheme token and an optional
      parameter (null when the header holds the scheme alone). */
  datatype HeaderValue = HeaderValue(scheme: string, parameter: Option<string>)

  /** The platform calls the handler makes but the model does not define:
      AuthenticationHeaderValue.Parse (None where it throws FormatException) and
      Encoding.UTF8.GetString, which never throws (invalid sequences become U+FFFD). */
  datatype Platform = Platform(parseHeader: string -> Option<HeaderValue>, utf8: seq<byte> -> string)

  /** What the handler sees of the request: whether the endpoint carries IAllowAnonymous
      metadata, and the Authorization header's text, None when the header is absent. */
  datatype AuthRequest = AuthRequest(allowsAnonymous: bool, authorization: Option<string>)

  datatype ClaimType = NameIdentifier | Name
  datatype Claim = Claim(claimType: ClaimType, value: string)

  /** An AuthenticationTicket for a principal with one ClaimsIdentity: the identity's claims
      and authentication type, and the ticket's scheme. */
  datatype Ticket = Ticket(claims: seq<Claim>, authenticationType: string, scheme: string)

  datatype AuthenticateResult = NoResult | Success(ticket: Ticket)

  /** The ticket issued for `username` under the handler's scheme. */
  function TicketFor(username: string, schemeName: string): (t: Ticket)
    ensures |t.claims| == 2
    ensures t.claims[0].claimType == NameIdentifier && t.claims[1].claimType == Name
    ensures forall i :: 0 <= i < |t.claims| ==> t.claims[i].value == username
    ensures t.authenticationType == schemeName && t.scheme == schemeName
  {
    Ticket([Claim(NameIdentifier, username), Claim(Name, username)], schemeName, schemeName)
  }

  /** The start of HandleAuthenticateAsync's try block, up to the split: parse the header,
      base64-decode its parameter and read the bytes as UTF-8. None where one of these throws: an unparsable header, a missing
      parameter (FromBase64String(null) throws ArgumentNullException) or bad base64. The
      scheme is never looked at. */
  function DecodedCredentials(platform: Platform, header: string): (r: Option<string>)
    ensures r.Some? <==>
      && platform.parseHeader(header).Some?
      && platform.parseHeader(header).value.parameter.Some?
      && Decode(platform.parseHeader(header).value.parameter.value).Some?
    ensures r.Some? ==> r.value == platform.utf8(Decode(platform.parseHeader(header).value.parameter.value).value)
  {
    match platform.parseHeader(header)
    case None => None
    case Some(value) =>
      match value.parameter
      case None => None
      case Some(parameter) =>
        match Decode(parameter)
        case None => None
        case Some(bytes) => Some(platform.utf8(bytes))
  }

  /** The rest of the try block before BasicAuthenticate: the text split at its first ':'
      into username and password. None when
      there is no ':' (credentials[1] is then out of range). The username holds no ':', the
      password may, and joining them with ':' gives the decoded text back. */
  function Credentials(platform: Platform, header: string): (r: Option<(string, string)>)
    ensures r.Some? <==> DecodedCredentials(platform, header).Some? && ':' in DecodedCredentials(platform, header).value
    ensures r.Some? ==> ':' !in r.value.0
    ensures r.Some? ==> r.value.0 + ":" + r.value.1 == DecodedCredentials(platform, header).value
  {
    match DecodedCredentials(platform, header)
    case None => None
    case Some(text) =>
      var parts := SplitFirst(text, ':');
      if |parts| == 2 then Some((parts[0], parts[1])) else None
  }

  /** HandleAuthenticateAsync. The anonymous check comes first and looks at no header; a
      missing header fails before anything is decoded or looked up; every exception inside the
      try block, BasicAuthenticate's own included, becomes "Invalid Authorization Header";
      credentials the list does not hold give "Invalid Username or Password"; otherwise both
      claims of the ticket carry the username. */
  function HandleAuthenticate(platform: Platform, keys: AuthKeys, schemeName: string, request: AuthRequest): (r: Outcome<AuthenticateResult>)
    ensures request.allowsAnonymous ==> r == Returned(NoResult)
    ensures !request.allowsAnonymous ==> r != Returned(NoResult)
    ensures !request.allowsAnonymous && request.authorization.None? ==> r == Threw(ApiError(MissingHeader))
    ensures !request.allowsAnonymous && request.authorization.Some?
            && (Credentials(platform, request.authorization.value).None? || keys.basic.None?)
            ==> r == Threw(ApiError(InvalidHeader))
    ensures r.Threw? ==>
      && r.exception.kind == ApiException
      && r.exception.message in {MissingHeader, InvalidHeader, InvalidCredentials}
    ensures !request.allowsAnonymous && request.authorization.Some?
            && Credentials(platform, request.authorization.value).Some? && keys.basic.Some?
            && DecodedCredentials(platform, request.authorization.value).value !in keys.basic.value
            ==> r == Threw(ApiError(InvalidCredentials))
    ensures request.authorization.Some? ==> r != Threw(ApiError(MissingHeader))
    ensures r.Threw? && r.exception.message == InvalidCredentials ==>
      && request.authorization.Some?
      && Credentials(platform, request.authorization.value).Some?
      && keys.basic.Some?
      && DecodedCredentials(platform, request.authorization.value).value !in keys.basic.value
    ensures r.Returned? && r.value.Success? ==>
      && request.authorization.Some?
      && Credentials(platform, request.authorization.value).Some?
      && r.value.ticket == TicketFor(Credentials(platform, request.authorization.value).value.0, schemeName)
  {
    if request.allowsAnonymous then Returned(NoResult)
    else if request.authorization.None? then Threw(ApiError(MissingHeader))
    else
      match Credentials(platform, request.authorization.value)
      case None => Threw(ApiError(InvalidHeader))
      case Some(credentials) =>
        var username := credentials.0;
        match MailService.BasicAuthenticate(keys, username, credentials.1)
        case Threw(_) => Threw(ApiError(InvalidHeader))
        case Returned(isAuthenticated) =>
          if !isAuthenticated then Threw(ApiError(InvalidCredentials))
          else Returned(Success(TicketFor(username, schemeName)))
  }

  /** A request is authenticated exactly when its header decodes to a text that holds a ':'
      and that the configured list holds verbatim. */
  lemma AuthenticatedIff(platform: Platform, keys: AuthKeys, schemeName: string, request: AuthRequest)
    ensures (var r := HandleAuthenticate(platform, keys, schemeName, request); r.Returned? && r.value.Success?)
      <==>
      && !request.allowsAnonymous
      && request.authorization.Some?
      && DecodedCredentials(platform, request.authorization.value).Some?
      && ':' in DecodedCredentials(platform, request.authorization.value).value
      && keys.basic.Some?
      && DecodedCredentials(platform, request.authorization.value).value in keys.basic.value
  {
  }

  /** Only the parameter of the header matters: two headers whose parameters agree are
      treated alike whatever their schemes, "Basic" or not. */
  lemma SchemeIgnored(platform: Platform, keys: AuthKeys, schemeName: string, allowsAnonymous: bool, h1: string, h2: string)
    requires platform.parseHeader(h1).Some? && platform.parseHeader(h2).Some?
    requires platform.parseHeader(h1).value.parameter == platform.parseHeader(h2).value.parameter
    ensures HandleAuthenticate(platform, keys, schemeName, AuthRequest(allowsAnonymous, Some(h1)))
         == HandleAuthenticate(platform, keys, schemeName, AuthRequest(allowsAnonymous, Some(h2)))
  {
  }

  /** The anonymous check comes before the header is read: the header, the configured list
      and the platform calls make no difference. */
  lemma AnonymousIgnoresHeader(p1: Platform, p2: Platform, k1: AuthKeys, k2: AuthKeys, schemeName: string,
                               a1: Option<string>, a2: Option<string>)
    ensures HandleAuthenticate(p1, k1, schemeName, AuthRequest(true, a1))
         == HandleAuthenticate(p2, k2, schemeName, AuthRequest(true, a2))
  {
  }

  /** A missing header fails before any decoding or lookup: neither the platform calls nor
      the configured list make a difference. */
  lemma MissingHeaderFirst(p1: Platform, p2: Platform, k1: AuthKeys, k2: AuthKeys, schemeName: string)
    ensures HandleAuthenticate(p1, k1, schemeName, AuthRequest(false, None))
         == HandleAuthenticate(p2, k2, schemeName, AuthRequest(false, None))
         == Threw(ApiError(MissingHeader))
  {
  }

  /** A client that sends `Basic base64(utf8(username ":" password))`, with a username free
      of ':', is authenticated as `username` exactly when the list holds "username:password",
      and is otherwise refused with "Invalid Username or Password". The password may hold ':'. */
  lemma {:induction false} EncodedCredentialsRoundTrip(platform: Platform, list: seq<string>, schemeName: string,
                                   header: string, scheme: string, bytes: seq<byte>, username: string, password: string)
    requires platform.parseHeader(header) == Some(HeaderValue(scheme, Some(Encode(bytes))))
    requires platform.utf8(bytes) == username + ":" + password
    requires ':' !in username
    ensures Credentials(platform, header) == Some((username, password))
    ensures HandleAuthenticate(platform, AuthKeys(Some(list)), schemeName, AuthRequest(false, Some(header)))
         == if username + ":" + password in list then Returned(Success(TicketFor(username, schemeName)))
            else Threw(ApiError(InvalidCredentials))
  {
    DecodeEncode(bytes);
    assert DecodedCredentials(platform, header) == Some(username + ":" + password);
    SplitFirstUnique(username + ":" + password, ':', username, password);
  }

  /** A decoded text without ':' is an invalid header, never a wrong password. */
  lemma {:induction false} NoColonIsInvalidHeader(platform: Platform, keys: AuthKeys, schemeName: string, header: string)
    requires DecodedCredentials(platform, header).Some?
    requires ':' !in DecodedCredentials(platform, header).value
    ensures HandleAuthenticate(platform, keys, schemeName, AuthRequest(false, Some(header))) == Threw(ApiError(InvalidHeader))
  {
    assert Credentials(platform, header).None?;
  }
}
