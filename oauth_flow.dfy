/** The OAuth2 login flow (src/oauth.rs) and its error responses
    (src/handlers/oauth/error.rs). Database lookups, the token endpoint and
    the user-info endpoints are parameters: `find` answers `Provider::find` and
    `Provider::find_enabled` for a slug, `send` is the token endpoint's reply,
    `userInfo` the client's user-info result for a token. URLs are origins
    (scheme, host and port) to which `join` appends an absolute path. */
module OAuthFlow {
  import opened Common
  import Utf8
  import Http
  import Database
  import Form = FormUrlEncoded
  import opened Providers
  import Client = OAuthClient

  /** The flow's errors. */
  datatype Error =
    | Database(error: Database.Error)
    | UnknownProvider
    | InvalidState
    | ProviderResponse(url: string)
    | ProviderInteraction(cause: Client.ClientError)
    | InvalidParameter(param: string)

  /** Rust's Debug formatting of a string: quoted, with quotes, backslashes and the
      common control characters escaped. */
  function DebugQuoted(s: string): (q: string)
    ensures |q| >= 2 && q[0] == '"' && q[|q| - 1] == '"'
  {
    "\"" + DebugEscaped(s) + "\""
  }

  function DebugEscaped(s: string): (e: string)
    ensures |e| >= |s|
    ensures (forall i :: 0 <= i < |s| ==> !NeedsEscape(s[i])) ==> e == s
  {
    if s == [] then ""
    else
      var init, c := s[..|s| - 1], s[|s| - 1];
      assert s == init + [c];
      DebugEscaped(init) + EscapeChar(c)
  }

  predicate NeedsEscape(c: char) {
    c == '"' || c == '\\' || c == '\n' || c == '\r' || c == '\t' || c == '\0'
  }

  function EscapeChar(c: char): (e: string)
    ensures !NeedsEscape(c) <==> e == [c]
    ensures NeedsEscape(c) ==> |e| == 2 && e[0] == '\\'
  {
    if c == '"' then "\\\""
    else if c == '\\' then "\\\\"
    else if c == '\n' then "\\n"
    else if c == '\r' then "\\r"
    else if c == '\t' then "\\t"
    else if c == '\0' then "\\0"
    else [c]
  }

  /** `into_response`: a redirect only for an error the provider reported,
      404 for an unknown provider, 400 for a bad state or parameter, and a
      generic 500 for database and provider failures, whose details stay in
      the logs. */
  function ErrorResponse(e: Error): (r: Http.Response)
    ensures r.status == Http.SeeOther <==> e.ProviderResponse?
    ensures e.ProviderResponse? ==> r == Http.RedirectTo(e.url)
    ensures e.Database? || e.ProviderInteraction? ==> r == Http.JsonResponse(Http.InternalServerError, "internal error")
    ensures e.UnknownProvider? ==> r == Http.JsonResponse(Http.NotFound, "unknown provider")
    ensures e.InvalidState? ==> r == Http.JsonResponse(Http.BadRequest, "invalid state")
    ensures e.InvalidParameter? ==>
      r == Http.JsonResponse(Http.BadRequest, "invalid value for parameter " + DebugQuoted(e.param))
  {
    match e
    case Database(_) => Http.JsonResponse(Http.InternalServerError, "internal error")
    case UnknownProvider => Http.JsonResponse(Http.NotFound, "unknown provider")
    case InvalidState => Http.JsonResponse(Http.BadRequest, "invalid state")
    case ProviderResponse(url) => Http.RedirectTo(url)
    case ProviderInteraction(_) => Http.JsonResponse(Http.InternalServerError, "internal error")
    case InvalidParameter(p) => Http.JsonResponse(Http.BadRequest, "invalid value for parameter " + DebugQuoted(p))
  }

  /** Only the provider-reported error leaves the API as a redirect; every
      other error is a client or server error status. */
  lemma ErrorStatuses(e: Error)
    ensures e.ProviderResponse? || 400 <= ErrorResponse(e).status < 600
    ensures ErrorResponse(e).location.Some? <==> e.ProviderResponse?
  {
  }

  /** A name without characters to escape is shown verbatim between quotes. */
  lemma ParameterShownVerbatim(p: string)
    requires forall i :: 0 <= i < |p| ==> !NeedsEscape(p[i])
    ensures ErrorResponse(InvalidParameter(p)).body == Http.JsonMessage("invalid value for parameter \"" + p + "\"")
  {
  }

  /** `ApiUrl::join` and `FrontendUrl::join` with an absolute path. */
  function Join(origin: string, path: string): string {
    origin + path
  }

  /** The callback's query parameters (section 4.1.2 of RFC 6749). */
  datatype CallbackResult =
    | Success(code: string)
    | Failure(error: string, description: Option<string>, uri: Option<string>)

  datatype CallbackParams = CallbackParams(state: string, result: CallbackResult)

  /** The parameters put on the frontend's login page when the provider
      reports an error: a cancellation when the user denied access, an
      unknown error otherwise. */
  function FailureParams(error: string): seq<(string, string)> {
    if error == "access_denied" then [("status", "cancelled")] else [("status", "error"), ("reason", "unknown")]
  }

  /** The frontend's login page with those parameters as its query. */
  function LoginRedirect(frontend: string, error: string): string {
    Join(frontend, "/login") + "?" + Form.Query(FailureParams(error))
  }

  /** `CallbackResult::into_code`: the code of a success; otherwise a redirect
      back to the frontend's login page telling it why. */
  function IntoCode(result: CallbackResult, frontend: string): (r: Result<string, Error>)
    ensures r.Ok? <==> result.Success?
    ensures r.Ok? ==> r.value == result.code
    ensures r.Err? ==> r.error == ProviderResponse(LoginRedirect(frontend, result.error))
  {
    match result
    case Success(code) => Ok(code)
    case Failure(error, _, _) => Err(ProviderResponse(LoginRedirect(frontend, error)))
  }

  /** The query of the login redirect is the serialized failure parameters:
      the login page's path has no `?` of its own. */
  lemma QueryOfLoginRedirect(frontend: string, error: string)
    requires forall i :: 0 <= i < |frontend| ==> frontend[i] != '?'
    ensures Client.QueryOf(LoginRedirect(frontend, error)) == Form.Query(FailureParams(error))
  {
    var path := Join(frontend, "/login");
    assert path == frontend + "/login";
    assert forall i :: 0 <= i < |path| ==> path[i] != '?' by {
      forall i | 0 <= i < |path| ensures path[i] != '?' {
        if i >= |frontend| {
          assert path[i] == "/login"[i - |frontend|];
        }
      }
    }
    Form.SplitFirst(path, '?', Form.Query(FailureParams(error)));
  }

  /** The login redirect's query parses back to the failure parameters. */
  lemma ParsedLoginRedirect(frontend: string, error: string)
    requires forall i :: 0 <= i < |frontend| ==> frontend[i] != '?'
    ensures Form.Parse(Client.QueryOf(LoginRedirect(frontend, error))) == Form.EncodedPairs(FailureParams(error))
  {
    QueryOfLoginRedirect(frontend, error);
    Form.ParseQuery(FailureParams(error));
  }

  /** A denied access sends `status=cancelled` and nothing else. */
  lemma LoginRedirectCancelled(frontend: string)
    requires forall i :: 0 <= i < |frontend| ==> frontend[i] != '?'
    ensures var parsed := Form.Parse(Client.QueryOf(LoginRedirect(frontend, "access_denied")));
      |parsed| == 1 && parsed[0] == (Utf8.Encode("status"), Utf8.Encode("cancelled"))
  {
    ParsedLoginRedirect(frontend, "access_denied");
    var params := FailureParams("access_denied");
    assert Form.EncodedPairs(params)[0] == (Utf8.Encode(params[0].0), Utf8.Encode(params[0].1));
  }

  /** Any other error sends `status=error` followed by `reason=unknown`. */
  lemma LoginRedirectFailed(frontend: string, error: string)
    requires forall i :: 0 <= i < |frontend| ==> frontend[i] != '?'
    requires error != "access_denied"
    ensures var parsed := Form.Parse(Client.QueryOf(LoginRedirect(frontend, error)));
      |parsed| == 2 && parsed[0] == (Utf8.Encode("status"), Utf8.Encode("error")) &&
      parsed[1] == (Utf8.Encode("reason"), Utf8.Encode("unknown"))
  {
    ParsedLoginRedirect(frontend, error);
    var params := FailureParams(error);
    var encoded := Form.EncodedPairs(params);
    assert encoded[0] == (Utf8.Encode(params[0].0), Utf8.Encode(params[0].1));
    assert encoded[1] == (Utf8.Encode(params[1].0), Utf8.Encode(params[1].1));
  }

  /** The login page learns from the query whether the user cancelled: its
      first parameter is `status`, `cancelled` exactly for `access_denied`, and
      `error` with `reason=unknown` after it otherwise. */
  lemma LoginRedirectStatus(frontend: string, error: string)
    requires forall i :: 0 <= i < |frontend| ==> frontend[i] != '?'
    ensures var parsed := Form.Parse(Client.QueryOf(LoginRedirect(frontend, error)));
      |parsed| >= 1 && parsed[0].0 == Utf8.Encode("status") &&
      (parsed[0].1 == Utf8.Encode("cancelled") <==> error == "access_denied")
  {
    if error == "access_denied" {
      LoginRedirectCancelled(frontend);
    } else {
      LoginRedirectFailed(frontend, error);
    }
  }

  /** A cancelled login and a failed one send the user to different pages. */
  lemma CancelledDiffersFromFailed(frontend: string, error: string)
    requires forall i :: 0 <= i < |frontend| ==> frontend[i] != '?'
    requires error != "access_denied"
    ensures LoginRedirect(frontend, "access_denied") != LoginRedirect(frontend, error)
  {
    LoginRedirectStatus(frontend, "access_denied");
    LoginRedirectStatus(frontend, error);
  }

  /** What `Provider::find` and `Provider::find_enabled` answer for a slug. */
  type Find = string -> Result<Option<Provider>, Database.Error>

  /** The callback URL registered with every provider. */
  function CallbackUrl(apiOrigin: string): string {
    Join(apiOrigin, "/oauth/callback")
  }

  /** `launch`: redirect to the enabled provider's authorization page, with
      `state` as the random state. */
  function Launch(slug: string, apiOrigin: string, findEnabled: Find, state: string): (r: Result<string, Error>)
    ensures findEnabled(slug).Err? <==> r.Err? && r.error.Database?
    ensures findEnabled(slug).Err? ==> r == Err(Database(findEnabled(slug).error))
    ensures r == Err(UnknownProvider) <==> findEnabled(slug) == Ok(None)
    ensures r.Ok? ==> (findEnabled(slug).Ok? && findEnabled(slug).value.Some? &&
      r.value == Client.BuildAuthorizationUrl(findEnabled(slug).value.value.config, CallbackUrl(apiOrigin), state).0)
  {
    match findEnabled(slug)
    case Err(e) => Err(Database(e))
    case Ok(None) => Err(UnknownProvider)
    case Ok(Some(provider)) =>
      Ok(Client.BuildAuthorizationUrl(provider.config, CallbackUrl(apiOrigin), state).0)
  }

  /** The page `launch` redirects to sends the user back to this API's
      callback, carrying the provider's client id and the state. */
  lemma LaunchRedirectsBack(slug: string, apiOrigin: string, findEnabled: Find, state: string)
    requires Launch(slug, apiOrigin, findEnabled, state).Ok?
    ensures var config := findEnabled(slug).value.value.config;
      var parsed := Form.Parse(Client.QueryOf(Launch(slug, apiOrigin, findEnabled, state).value));
      |parsed| == 5 &&
      parsed[1] == (Utf8.Encode("redirect_uri"), Utf8.Encode(CallbackUrl(apiOrigin))) &&
      parsed[2] == (Utf8.Encode("state"), Utf8.Encode(state)) &&
      parsed[3] == (Utf8.Encode("client_id"), Utf8.Encode(config.clientId))
  {
    Client.AuthorizationUrlParams(findEnabled(slug).value.value.config, CallbackUrl(apiOrigin), state);
  }

  /** The page the user lands on once the flow completes. */
  function CompletedRedirect(info: Client.UserInfo): string {
    "/?id=" + info.id + "&email=" + info.email
  }

  /** `callback`: checks in order that a state is present, that the provider
      returned a code, that the GitHub provider exists, that the code can be
      exchanged and that the client's `user_info` identifies the user with the
      token; then redirects with the provider's id and email for the user.
      `fetchAs(token)` answers the requests `user_info` makes with that token;
      `None` stands for its panic when GitHub lists no primary email. */
  function Callback(params: CallbackParams, frontend: string, apiOrigin: string, find: Find,
                    send: Client.ExchangeRequest -> Result<Client.Reply, Client.TransportError>,
                    decode: string -> Option<Client.ExchangeResponse>,
                    fetchAs: string -> Client.Fetch, d: Client.Decoders)
    : (r: Option<Result<string, Error>>)
    ensures params.state == "" ==> r == Some(Err(InvalidState))
    ensures params.state != "" && params.result.Failure? ==>
      r == Some(Err(ProviderResponse(LoginRedirect(frontend, params.result.error))))
    ensures params.state != "" && params.result.Success? ==>
      (find("github").Err? ==> r == Some(Err(Database(find("github").error)))) &&
      (find("github") == Ok(None) ==> r == Some(Err(UnknownProvider)))
    ensures r.None? ==>
      params.state != "" && params.result.Success? && find("github").Ok? && find("github").value.Some? &&
      var config := find("github").value.value.config;
      var token := Client.Exchange(params.result.code, CallbackUrl(apiOrigin), config, send, decode);
      token.Ok? && Client.UserInfoFor(config, fetchAs(token.value), d).None?
    ensures r.Some? && r.value.Ok? ==>
      params.state != "" && params.result.Success? && find("github").Ok? && find("github").value.Some? &&
      var config := find("github").value.value.config;
      var token := Client.Exchange(params.result.code, CallbackUrl(apiOrigin), config, send, decode);
      token.Ok? &&
      var info := Client.UserInfoFor(config, fetchAs(token.value), d);
      info.Some? && info.value.Ok? && r.value.value == CompletedRedirect(info.value.value)
    ensures r.Some? && r.value.Err? && r.value.error.ProviderInteraction? ==>
      params.state != "" && params.result.Success? && find("github").Ok? && find("github").value.Some? &&
      var config := find("github").value.value.config;
      var token := Client.Exchange(params.result.code, CallbackUrl(apiOrigin), config, send, decode);
      (token.Err? && r.value.error.cause == token.error) ||
      (token.Ok? && Client.UserInfoFor(config, fetchAs(token.value), d) == Some(Err(r.value.error.cause)))
  {
    if params.state == "" then Some(Err(InvalidState))
    else
      match IntoCode(params.result, frontend)
      case Err(e) => Some(Err(e))
      case Ok(code) =>
        match find("github")
        case Err(e) => Some(Err(Database(e)))
        case Ok(None) => Some(Err(UnknownProvider))
        case Ok(Some(provider)) =>
          match Client.Exchange(code, CallbackUrl(apiOrigin), provider.config, send, decode)
          case Err(e) => Some(Err(ProviderInteraction(e)))
          case Ok(token) =>
            match Client.UserInfoFor(provider.config, fetchAs(token), d)
            case None => None
            case Some(Err(e)) => Some(Err(ProviderInteraction(e)))
            case Some(Ok(info)) => Some(Ok(CompletedRedirect(info)))
  }

  /** The callback never completes unless the provider issued a bearer token:
      a reply of another token type ends in a provider-interaction error. */
  lemma CallbackNeedsBearer(params: CallbackParams, frontend: string, apiOrigin: string, find: Find,
                            send: Client.ExchangeRequest -> Result<Client.Reply, Client.TransportError>,
                            decode: string -> Option<Client.ExchangeResponse>,
                            fetchAs: string -> Client.Fetch, d: Client.Decoders)
    requires Callback(params, frontend, apiOrigin, find, send, decode, fetchAs, d).Some?
    requires Callback(params, frontend, apiOrigin, find, send, decode, fetchAs, d).value.Ok?
    ensures var config := find("github").value.value.config;
      var sent := send(Client.ExchangeRequestFor(params.result.code, CallbackUrl(apiOrigin), config));
      sent.Ok? && Client.DeserializeIfSuccessful(sent.value, decode).Ok? &&
      Lower(Client.DeserializeIfSuccessful(sent.value, decode).value.tokenType) == "bearer"
  {
  }

  /** The response `launch` and `callback` send. */
  function Respond(r: Result<string, Error>): (resp: Http.Response)
    ensures r.Ok? ==> resp == Http.RedirectTo(r.value)
    ensures r.Err? ==> resp == ErrorResponse(r.error)
  {
    match r
    case Ok(url) => Http.RedirectTo(url)
    case Err(e) => ErrorResponse(e)
  }
}
