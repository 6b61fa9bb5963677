/** The errors of the context handlers (src/handlers/error.rs). */
module HandlerErrors {
  import opened Common
  import Http
  import Database
  import SessionStorage

  datatype Error =
    | EventNotFound
    | Database(error: Database.Error)
    | Session(cause: SessionStorage.StoreError)

  /** `Display`. */
  function Display(e: Error): (s: string)
    ensures e.EventNotFound? <==> s == "unknown event"
    ensures e.Database? <==> s == "unexpected database error"
    ensures e.Session? <==> s == "unexpected session error"
  {
    match e
    case EventNotFound => "unknown event"
    case Database(_) => "unexpected database error"
    case Session(_) => "unexpected session error"
  }

  /** `Error::source`: only a missing event has no underlying cause. */
  datatype Cause = DatabaseCause(db: Database.Error) | SessionCause(session: SessionStorage.StoreError)

  function Source(e: Error): (r: Option<Cause>)
    ensures r.None? <==> e.EventNotFound?
    ensures e.Database? ==> r == Some(DatabaseCause(e.error))
    ensures e.Session? ==> r == Some(SessionCause(e.cause))
  {
    match e
    case EventNotFound => None
    case Database(d) => Some(DatabaseCause(d))
    case Session(s) => Some(SessionCause(s))
  }

  /** `into_response`: an unknown event is the caller's mistake (422); any
      other failure is a generic 500 whose details stay in the logs. */
  function ErrorResponse(e: Error): (r: Http.Response)
    ensures e.EventNotFound? ==> r == Http.JsonResponse(Http.UnprocessableEntity, "unknown event")
    ensures !e.EventNotFound? ==> r == Http.JsonResponse(Http.InternalServerError, "internal server error")
  {
    if e.EventNotFound? then Http.JsonResponse(Http.UnprocessableEntity, "unknown event")
    else Http.JsonResponse(Http.InternalServerError, "internal server error")
  }

  /** The response shows no more than the error's display text, and never
      any of its cause. */
  lemma ResponseHidesCause(a: Error, b: Error)
    requires a.EventNotFound? == b.EventNotFound?
    ensures ErrorResponse(a) == ErrorResponse(b)
  {
  }

  /** `From<InvalidUri>`: a host that is not a valid URI cannot name an event. */
  function FromInvalidUri(): (e: Error)
    ensures e.EventNotFound? && ErrorResponse(e).status == Http.UnprocessableEntity
  {
    EventNotFound
  }
}
