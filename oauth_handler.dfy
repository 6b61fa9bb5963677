/** The handler-side copy of the OAuth2 launch (src/handlers/oauth.rs). Its
    `build_authorization_url` is the same as the client's and is modelled once,
    by `OAuthClient.BuildAuthorizationUrl`; what differs is the error type. */
module OAuthHandler {
  import opened Common
  import Http
  import Database
  import Client = OAuthClient
  import Flow = OAuthFlow

  datatype Error = Database(error: Database.Error) | NotFound

  /** `into_response`: a generic 500 for database failures, 404 for a missing
      or disabled provider. */
  function ErrorResponse(e: Error): (r: Http.Response)
    ensures e.Database? ==> r == Http.JsonResponse(Http.InternalServerError, "internal error")
    ensures e.NotFound? ==> r == Http.JsonResponse(Http.NotFound, "unknown provider")
  {
    match e
    case Database(_) => Http.JsonResponse(Http.InternalServerError, "internal error")
    case NotFound => Http.JsonResponse(Http.NotFound, "unknown provider")
  }

  /** `launch`: redirect to the enabled provider's authorization page. */
  function Launch(slug: string, apiOrigin: string, findEnabled: Flow.Find, state: string): (r: Result<Http.Response, Error>)
    ensures findEnabled(slug).Err? <==> r.Err? && r.error.Database?
    ensures findEnabled(slug).Err? ==> r == Err(Database(findEnabled(slug).error))
    ensures r == Err(NotFound) <==> findEnabled(slug) == Ok(None)
    ensures r.Ok? ==> (findEnabled(slug).Ok? && findEnabled(slug).value.Some? &&
      r.value == Http.RedirectTo(Client.BuildAuthorizationUrl(findEnabled(slug).value.value.config,
                                                              Flow.CallbackUrl(apiOrigin), state).0))
  {
    match findEnabled(slug)
    case Err(e) => Err(Database(e))
    case Ok(None) => Err(NotFound)
    case Ok(Some(provider)) =>
      Ok(Http.RedirectTo(Client.BuildAuthorizationUrl(provider.config, Flow.CallbackUrl(apiOrigin), state).0))
  }

  /** Both launches send the same response for the same lookup and state. */
  lemma LaunchesAgree(slug: string, apiOrigin: string, findEnabled: Flow.Find, state: string)
    ensures var h := Launch(slug, apiOrigin, findEnabled, state);
      var f := Flow.Launch(slug, apiOrigin, findEnabled, state);
      (h.Ok? <==> f.Ok?) &&
      (h.Ok? ==> h.value == Flow.Respond(f)) &&
      (h.Err? ==> ErrorResponse(h.error) == Flow.Respond(f))
  {
  }
}
