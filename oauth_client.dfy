/** The OAuth2 client (src/oauth/client.rs): building the authorization request
    of section 4.1.1 of RFC 6749, exchanging the code for an access token
    (section 4.1.3), and turning each provider's user-info reply into an id and
    an email. HTTP itself is not modelled: a reply is a status and a body, or a
    transport failure, handed in as a parameter; JSON decoding is a parameter
    too. The random `state` is a parameter. */
module OAuthClient {
  import opened Common
  import Utf8
  import Form = FormUrlEncoded
  import opened Providers

  /** The authorization endpoint of each kind. */
  function AuthorizeEndpoint(config: ProviderConfiguration): (url: string)
    ensures forall i :: 0 <= i < |url| ==> url[i] != '?'
  {
    match config
    case Google(_, _) => "https://accounts.google.com/o/oauth2/v2/auth"
    case GitHub(_, _) => "https://github.com/login/oauth/authorize"
    case Discord(_, _) => "https://discord.com/oauth2/authorize"
  }

  /** The scopes requested from each kind. */
  function Scope(config: ProviderConfiguration): string {
    match config
    case Google(_, _) => "openid profile email"
    case GitHub(_, _) => "read:user user:email"
    case Discord(_, _) => "identify email"
  }

  /** The parameters of the authorization request, in the order they are
      appended. */
  function AuthorizationParams(config: ProviderConfiguration, redirectUrl: string, state: string): seq<(string, string)> {
    [("response_type", "code"), ("redirect_uri", redirectUrl), ("state", state),
     ("client_id", config.clientId), ("scope", Scope(config))]
  }

  /** `build_authorization_url`: the endpoint of the provider's kind, then `?`,
      then the parameters as a form serializer writes them; the state is
      returned alongside so that the caller can remember it. */
  function BuildAuthorizationUrl(config: ProviderConfiguration, redirectUrl: string, state: string)
    : (r: (string, string))
    ensures r.1 == state
    ensures |r.0| > |AuthorizeEndpoint(config)| + 1
    ensures r.0[..|AuthorizeEndpoint(config)| + 1] == AuthorizeEndpoint(config) + "?"
  {
    var endpoint := AuthorizeEndpoint(config);
    var url := endpoint + "?" + Form.Query(AuthorizationParams(config, redirectUrl, state));
    assert url[..|endpoint| + 1] == endpoint + "?";
    (url, state)
  }

  /** The query of a URL: what follows its first `?`. */
  function QueryOf(url: string): string {
    Form.After(url, '?')
  }

  /** What follows the `?` of the authorization URL is the serialized
      parameter list: the endpoints contain no `?` of their own. */
  lemma QueryOfAuthorizationUrl(config: ProviderConfiguration, redirectUrl: string, state: string)
    ensures QueryOf(BuildAuthorizationUrl(config, redirectUrl, state).0)
      == Form.Query(AuthorizationParams(config, redirectUrl, state))
  {
    Form.SplitFirst(AuthorizeEndpoint(config), '?', Form.Query(AuthorizationParams(config, redirectUrl, state)));
  }

  /** The parameter list as UTF-8 pairs, one by one. */
  lemma EncodedAuthorizationParams(config: ProviderConfiguration, redirectUrl: string, state: string)
    ensures var encoded := Form.EncodedPairs(AuthorizationParams(config, redirectUrl, state));
      |encoded| == 5 &&
      encoded[0] == (Utf8.Encode("response_type"), Utf8.Encode("code")) &&
      encoded[1] == (Utf8.Encode("redirect_uri"), Utf8.Encode(redirectUrl)) &&
      encoded[2] == (Utf8.Encode("state"), Utf8.Encode(state)) &&
      encoded[3] == (Utf8.Encode("client_id"), Utf8.Encode(config.clientId)) &&
      encoded[4] == (Utf8.Encode("scope"), Utf8.Encode(Scope(config)))
  {
    var params := AuthorizationParams(config, redirectUrl, state);
    var encoded := Form.EncodedPairs(params);
    assert encoded[0] == (Utf8.Encode(params[0].0), Utf8.Encode(params[0].1));
    assert encoded[1] == (Utf8.Encode(params[1].0), Utf8.Encode(params[1].1));
    assert encoded[2] == (Utf8.Encode(params[2].0), Utf8.Encode(params[2].1));
    assert encoded[3] == (Utf8.Encode(params[3].0), Utf8.Encode(params[3].1));
  }

  /** The authorization URL carries, in order, `response_type=code`, the
      redirect URI, the state, the client id and the kind's scopes: a
      form-urlencoded parser reads each of them back exactly. */
  lemma AuthorizationUrlParams(config: ProviderConfiguration, redirectUrl: string, state: string)
    ensures var url := BuildAuthorizationUrl(config, redirectUrl, state).0;
      var parsed := Form.Parse(QueryOf(url));
      |parsed| == 5 &&
      parsed[0] == (Utf8.Encode("response_type"), Utf8.Encode("code")) &&
      parsed[1] == (Utf8.Encode("redirect_uri"), Utf8.Encode(redirectUrl)) &&
      parsed[2] == (Utf8.Encode("state"), Utf8.Encode(state)) &&
      parsed[3] == (Utf8.Encode("client_id"), Utf8.Encode(config.clientId)) &&
      parsed[4] == (Utf8.Encode("scope"), Utf8.Encode(Scope(config)))
  {
    QueryOfAuthorizationUrl(config, redirectUrl, state);
    Form.ParseQuery(AuthorizationParams(config, redirectUrl, state));
    EncodedAuthorizationParams(config, redirectUrl, state);
  }

  // The token exchange.

  /** `ExchangeConfig`: where and as whom to exchange a code. */
  datatype ExchangeConfig = ExchangeConfig(url: string, clientId: string, clientSecret: string)

  function TokenEndpoint(config: ProviderConfiguration): string {
    match config
    case Google(_, _) => "https://oauth2.googleapis.com/token"
    case GitHub(_, _) => "https://github.com/login/oauth/access_token"
    case Discord(_, _) => "https://discord.com/api/oauth2/token"
  }

  /** `ExchangeConfig::from`: the kind's token endpoint with the provider's own
      credentials. */
  function ExchangeConfigFor(config: ProviderConfiguration): (c: ExchangeConfig)
    ensures c.url == TokenEndpoint(config)
    ensures c.clientId == config.clientId && c.clientSecret == config.clientSecret
  {
    match config
    case Google(id, secret) => ExchangeConfig("https://oauth2.googleapis.com/token", id, secret)
    case GitHub(id, secret) => ExchangeConfig("https://github.com/login/oauth/access_token", id, secret)
    case Discord(id, secret) => ExchangeConfig("https://discord.com/api/oauth2/token", id, secret)
  }

  /** The form posted to the token endpoint. */
  datatype ExchangeRequest = ExchangeRequest(code: string, grantType: string, clientId: string,
                                             clientSecret: string, redirectUri: string)

  function ExchangeRequestFor(code: string, redirectUri: string, config: ProviderConfiguration): (r: ExchangeRequest)
    ensures r.grantType == "authorization_code" && r.code == code && r.redirectUri == redirectUri
    ensures r.clientId == config.clientId && r.clientSecret == config.clientSecret
  {
    var c := ExchangeConfigFor(config);
    ExchangeRequest(code, "authorization_code", c.clientId, c.clientSecret, redirectUri)
  }

  /** What reqwest reports about a failure. */
  datatype TransportError = TransportError(isConnect: bool, isTimeout: bool, isBody: bool, isDecode: bool)

  /** The client's errors. Only the fields that decide behaviour are kept. */
  datatype ClientError =
    | UnknownTokenType(tokenType: string)
    | BodyParse(content: string)
    | Unsuccessful(status: nat, content: string)
    | BodyRead
    | Connection
    | Unknown

  /** `From<reqwest::Error>`: a connection or timeout failure first, then a
      failure reading or decoding the body, then anything else. */
  function Classify(e: TransportError): (r: ClientError)
    ensures r == Connection <==> e.isConnect || e.isTimeout
    ensures r == BodyRead <==> !e.isConnect && !e.isTimeout && (e.isBody || e.isDecode)
    ensures r == Unknown <==> !e.isConnect && !e.isTimeout && !e.isBody && !e.isDecode
  {
    if e.isConnect || e.isTimeout then Connection
    else if e.isBody || e.isDecode then BodyRead
    else Unknown
  }

  /** A reply: its status, and its body or the failure reading it. */
  datatype Reply = Reply(status: nat, body: Result<string, TransportError>)

  predicate IsSuccess(status: nat) {
    200 <= status < 300
  }

  /** `deserialize_if_successful`: the body is read first; a success status
      decodes it, any other status is an `Unsuccessful` error carrying the
      status and the body whatever it holds. */
  function DeserializeIfSuccessful<T>(reply: Reply, decode: string -> Option<T>): (r: Result<T, ClientError>)
    ensures reply.body.Err? ==> r == Err(Classify(reply.body.error))
    ensures reply.body.Ok? && !IsSuccess(reply.status) ==> r == Err(Unsuccessful(reply.status, reply.body.value))
    ensures reply.body.Ok? && IsSuccess(reply.status) ==>
      (decode(reply.body.value).Some? ==> r == Ok(decode(reply.body.value).value)) &&
      (decode(reply.body.value).None? ==> r == Err(BodyParse(reply.body.value)))
  {
    match reply.body
    case Err(e) => Err(Classify(e))
    case Ok(content) =>
      if IsSuccess(reply.status) then
        match decode(content)
        case Some(v) => Ok(v)
        case None => Err(BodyParse(content))
      else Err(Unsuccessful(reply.status, content))
  }

  /** The JSON reply of a token endpoint. */
  datatype ExchangeResponse = ExchangeResponse(accessToken: string, tokenType: string)

  /** The token-type check of section 5.1 of RFC 6749: only a bearer token, in
      any letter case, is accepted. Comparing the ASCII-lowered type with
      "bearer" agrees with Rust's Unicode `to_lowercase`, since no non-ASCII
      character lowers to one of its letters. */
  function CheckTokenType(creds: ExchangeResponse): (r: Result<string, ClientError>)
    ensures r.Ok? <==> Lower(creds.tokenType) == "bearer"
    ensures r.Ok? ==> r.value == creds.accessToken
    ensures r.Err? ==> r.error == UnknownTokenType(creds.tokenType)
  {
    if Lower(creds.tokenType) == "bearer" then Ok(creds.accessToken) else Err(UnknownTokenType(creds.tokenType))
  }

  /** Providers that answer "Bearer" or "bearer" are both accepted. */
  lemma BearerInAnyCase(accessToken: string)
    ensures CheckTokenType(ExchangeResponse(accessToken, "Bearer")) == Ok(accessToken)
    ensures CheckTokenType(ExchangeResponse(accessToken, "bearer")) == Ok(accessToken)
  {
    assert Lower("Bearer") == "bearer";
    assert Lower("bearer") == "bearer";
  }

  /** `exchange`: post the request built for the provider, decode the reply
      and insist on a bearer token. `send` is what the token endpoint answered
      to that request. */
  function Exchange(code: string, redirectUri: string, config: ProviderConfiguration,
                    send: ExchangeRequest -> Result<Reply, TransportError>,
                    decode: string -> Option<ExchangeResponse>): (r: Result<string, ClientError>)
    ensures var sent := send(ExchangeRequestFor(code, redirectUri, config));
      (sent.Err? ==> r == Err(Classify(sent.error))) &&
      (sent.Ok? ==>
        var creds := DeserializeIfSuccessful(sent.value, decode);
        (creds.Err? ==> r == Err(creds.error)) &&
        (creds.Ok? ==> r == CheckTokenType(creds.value)))
  {
    match send(ExchangeRequestFor(code, redirectUri, config))
    case Err(e) => Err(Classify(e))
    case Ok(reply) =>
      match DeserializeIfSuccessful(reply, decode)
      case Err(e) => Err(e)
      case Ok(creds) => CheckTokenType(creds)
  }

  // User information.

  /** The provider's id for the user and their preferred email. */
  datatype UserInfo = UserInfo(id: string, email: string)

  /** `From<OpenIDConnectUserInfo>`: the subject is the id. */
  function FromOpenIdConnect(sub: string, email: string): (u: UserInfo)
    ensures u.id == sub && u.email == email
  {
    UserInfo(sub, email)
  }

  /** `From<DiscordUserInfo>`. */
  function FromDiscord(id: string, email: string): (u: UserInfo)
    ensures u.id == id && u.email == email
  {
    UserInfo(id, email)
  }

  /** An entry of GitHub's list of a user's emails. */
  datatype GitHubEmail = GitHubEmail(email: string, primary: bool)

  /** The email of the first entry flagged primary. */
  function PrimaryEmail(emails: seq<GitHubEmail>): (r: Option<string>)
    ensures r.Some? <==> exists i :: 0 <= i < |emails| && emails[i].primary
    ensures r.Some? ==> exists i :: (0 <= i < |emails| && emails[i].primary && emails[i].email == r.value &&
      forall j :: 0 <= j < i ==> !emails[j].primary)
  {
    if emails == [] then None
    else if emails[0].primary then Some(emails[0].email)
    else
      var r := PrimaryEmail(emails[1..]);
      assert forall i :: 1 <= i < |emails| ==> emails[i] == emails[1..][i - 1];
      r
  }

  /** `i64::to_string`. */
  function DecimalString(n: I64): (s: string)
    ensures n < 0 <==> |s| > 0 && s[0] == '-'
  {
    if n < 0 then "-" + NatDigits(0 - n as int) else NatDigits(n)
  }

  function ParseDecimal(s: string): int
    requires forall i :: 0 <= i < |s| ==> ('0' <= s[i] <= '9' || (i == 0 && s[i] == '-'))
  {
    if |s| > 0 && s[0] == '-' then 0 - ParseNat(s[1..]) as int else ParseNat(s)
  }

  /** The id GitHub reports reads back from its decimal text, so distinct ids
      have distinct texts. */
  lemma DecimalRoundTrip(n: I64)
    ensures ParseDecimal(DecimalString(n)) == n
  {
    if n < 0 {
      ParseNatDigits(0 - n as int);
      assert DecimalString(n)[1..] == NatDigits(0 - n as int);
    } else {
      ParseNatDigits(n);
    }
  }

  /** The GitHub branch of `user_info`: the decimal id with the first primary
      email. `None` stands for the panic when no email is primary. */
  function GitHubUserInfo(id: I64, emails: seq<GitHubEmail>): (r: Option<UserInfo>)
    ensures r.Some? <==> PrimaryEmail(emails).Some?
    ensures r.Some? ==> r.value.id == DecimalString(id) && r.value.email == PrimaryEmail(emails).value
  {
    match PrimaryEmail(emails)
    case Some(email) => Some(UserInfo(DecimalString(id), email))
    case None => None
  }

  const GoogleUserInfoUrl := "https://openidconnect.googleapis.com/v1/userinfo"
  const DiscordUserInfoUrl := "https://discord.com/api/v10/users/@me"
  const GitHubUserUrl := "https://api.github.com/user"
  const GitHubEmailsUrl := "https://api.github.com/user/emails"

  /** The provider's answer to a GET of a URL carrying the access token. */
  type Fetch = string -> Result<Reply, TransportError>

  /** One authenticated GET, decoded when successful (`simple_user_info`'s and
      `github_request`'s common part). */
  function Request<T>(get: Fetch, url: string, decode: string -> Option<T>): (r: Result<T, ClientError>)
    ensures get(url).Err? ==> r == Err(Classify(get(url).error))
    ensures get(url).Ok? ==> r == DeserializeIfSuccessful(get(url).value, decode)
  {
    match get(url)
    case Err(e) => Err(Classify(e))
    case Ok(reply) => DeserializeIfSuccessful(reply, decode)
  }

  /** How each user-info body is decoded: `(sub, email)`, `(id, email)`,
      GitHub's numeric id and GitHub's email list. */
  datatype Decoders = Decoders(
    openIdConnect: string -> Option<(string, string)>,
    discord: string -> Option<(string, string)>,
    gitHubUser: string -> Option<I64>,
    gitHubEmails: string -> Option<seq<GitHubEmail>>)

  /** `user_info`. `None` stands for the panic when GitHub lists no primary
      email. GitHub's two requests are joined; a failure of the user request is
      reported before one of the email request. */
  function UserInfoFor(config: ProviderConfiguration, get: Fetch, d: Decoders): (r: Option<Result<UserInfo, ClientError>>)
    ensures r.None? ==>
      (config.GitHub? && Request(get, GitHubUserUrl, d.gitHubUser).Ok? &&
       Request(get, GitHubEmailsUrl, d.gitHubEmails).Ok? &&
       PrimaryEmail(Request(get, GitHubEmailsUrl, d.gitHubEmails).value).None?)
    ensures config.Google? ==>
      (var fetched := Request(get, GoogleUserInfoUrl, d.openIdConnect);
       r.Some? && (r.value.Ok? <==> fetched.Ok?) &&
       (fetched.Ok? ==> r.value.value == FromOpenIdConnect(fetched.value.0, fetched.value.1)) &&
       (fetched.Err? ==> r.value.error == fetched.error))
    ensures config.Discord? ==>
      (var fetched := Request(get, DiscordUserInfoUrl, d.discord);
       r.Some? && (r.value.Ok? <==> fetched.Ok?) &&
       (fetched.Ok? ==> r.value.value == FromDiscord(fetched.value.0, fetched.value.1)) &&
       (fetched.Err? ==> r.value.error == fetched.error))
    ensures config.GitHub? ==>
      (var user := Request(get, GitHubUserUrl, d.gitHubUser);
       var emails := Request(get, GitHubEmailsUrl, d.gitHubEmails);
       && (user.Err? ==> r == Some(Err(user.error)))
       && (user.Ok? && emails.Err? ==> r == Some(Err(emails.error)))
       && (user.Ok? && emails.Ok? && PrimaryEmail(emails.value).Some? ==>
             r == Some(Ok(UserInfo(DecimalString(user.value), PrimaryEmail(emails.value).value)))))
    ensures config.GitHub? && r.Some? && r.value.Ok? ==>
      (Request(get, GitHubUserUrl, d.gitHubUser).Ok? &&
       Request(get, GitHubEmailsUrl, d.gitHubEmails).Ok? &&
       r.value.value.id == DecimalString(Request(get, GitHubUserUrl, d.gitHubUser).value) &&
       Some(r.value.value.email) == PrimaryEmail(Request(get, GitHubEmailsUrl, d.gitHubEmails).value))
  {
    match config
    case Google(_, _) =>
      var fetched := Request(get, GoogleUserInfoUrl, d.openIdConnect);
      Some(if fetched.Ok? then Ok(FromOpenIdConnect(fetched.value.0, fetched.value.1)) else Err(fetched.error))
    case Discord(_, _) =>
      var fetched := Request(get, DiscordUserInfoUrl, d.discord);
      Some(if fetched.Ok? then Ok(FromDiscord(fetched.value.0, fetched.value.1)) else Err(fetched.error))
    case GitHub(_, _) =>
      var user := Request(get, GitHubUserUrl, d.gitHubUser);
      var emails := Request(get, GitHubEmailsUrl, d.gitHubEmails);
      if user.Err? then Some(Err(user.error))
      else if emails.Err? then Some(Err(emails.error))
      else
        match GitHubUserInfo(user.value, emails.value)
        case None => None
        case Some(info) => Some(Ok(info))
  }
}
