/** The per-request lifecycle of the `session` crate (session/src/middleware.rs):
    resolve the request's session or mint one, run the handler with it, extend it
    if it is about to expire, save it once, and set the cookie only for a session
    minted in this request. The handler is a parameter that maps the session state
    it is given to the state it leaves plus its response, or fails. One clock
    reading `now` serves the whole request. */
module SessionMiddleware {
  import opened Common
  import opened SessionToken
  import SessionTiming
  import SessionStorage
  import Http
  import Sessions
  import SessionStore
  import opened SessionManager

  /** The stored session a request's cookie resumes, if any. A missing cookie, a
      token that fails a check, a key Redis no longer holds, an unreadable value
      and a Redis failure all resume nothing. */
  function Resolve(entries: SessionStorage.Entries<Sessions.SessionState>, jar: Jar, key: string, now: int,
                   reachable: bool, hmac: Mac, blake3: Hash): Option<Sessions.Record>
  {
    if CookieName !in jar then None
    else match Check(jar[CookieName], key, hmac)
      case Valid(secret) =>
        (match SessionStorage.Fetch(entries, GenerateId(secret, blake3), now, reachable)
         case Ok(Some(record)) => Some(record)
         case _ => None)
      case _ => None
  }

  /** The session a request starts with: the resumed one, or a fresh default. */
  function Initial(resumed: Option<Sessions.Record>, secret: Secret, now: int, blake3: Hash): Sessions.Record {
    match resumed
    case Some(record) => record
    case None => SessionStorage.Record(GenerateId(secret, blake3), now + SessionTiming.InitialLifetime, Sessions.Unauthenticated)
  }

  /** The response when the session cannot be saved. */
  const SaveFailed: Http.Response := Http.TextResponse(Http.InternalServerError, "internal error")

  class SessionLayer {
    const manager: Manager

    constructor(manager: Manager)
      ensures this.manager == manager
    {
      this.manager := manager;
    }

    /** `load_or_create`: a failed load is logged and treated as no session, and no
        session becomes a fresh default one built from `secret`. */
    method LoadOrCreate(jar: Jar, now: int, reachable: bool, secret: Secret) returns (session: Sessions.Session)
      modifies manager.store`lookups
      ensures fresh(session)
      ensures var resumed := Resolve(manager.store.entries, jar, manager.settings.key, now, reachable, manager.hmac, manager.blake3);
        session.ToRecord() == Initial(resumed, secret, now, manager.blake3) &&
        (session.cookieValue.Some? <==> resumed.None?) &&
        (resumed.None? ==> session.cookieValue == Some(secret))
    {
      var loaded := manager.LoadFromCookie(jar, now, reachable);
      var found: Option<Sessions.Session> := None;
      if loaded.Ok? {
        found := loaded.value;
      }
      if found.Some? {
        session := found.value;
      } else {
        session := new Sessions.Session.Default(secret, now, manager.blake3);
      }
    }

    /** `SessionMiddleware::call`. A failing handler fails the request with no
        extension and no save. Otherwise the session is extended and saved once;
        a failed save replaces the response by a 500 and sets no cookie; a
        successful one passes the handler's response on, with the session cookie
        added exactly when the session was minted in this request. */
    method Call<E>(jar: Jar, now: int, secret: Secret, loadReachable: bool, saveReachable: bool,
                   handler: Sessions.SessionState -> Result<(Sessions.SessionState, Http.Response), E>)
      returns (r: Result<Http.Response, E>)
      modifies manager.store
      ensures var resumed := Resolve(old(manager.store.entries), jar, manager.settings.key, now, loadReachable, manager.hmac, manager.blake3);
        var start := Initial(resumed, secret, now, manager.blake3);
        match handler(start.state)
        case Err(e) =>
          r == Err(e) && manager.store.entries == old(manager.store.entries)
        case Ok((state, response)) =>
          var saved := SessionStorage.Record(start.id, SessionTiming.Extended(start.expiry, now), state);
          var put := SessionStorage.Put(old(manager.store.entries), saved, now, saveReachable);
          if put.Err? then
            r == Ok(SaveFailed) && manager.store.entries == old(manager.store.entries)
          else
            manager.store.entries == put.value &&
            r == Ok(if resumed.None?
                    then Http.WithCookie(response, SessionCookie(manager.settings, secret, saved.expiry, manager.hmac))
                    else response)
    {
      var session := LoadOrCreate(jar, now, loadReachable, secret);
      var outcome := handler(session.state);
      if outcome.Err? {
        return Err(outcome.error);
      }
      var (state, response) := outcome.value;
      session.state := state;
      session.ExtendIfExpiring(now);
      var saved := manager.Save(session, now, saveReachable);
      if saved.Err? {
        return Ok(SaveFailed);
      }
      var cookie := manager.BuildCookie(session);
      if cookie.Some? {
        r := Ok(Http.WithCookie(response, cookie.value));
      } else {
        r := Ok(response);
      }
    }
  }

  /** After extension the save can only fail because Redis is unreachable: the
      extended session always has at least eight hours to live. */
  lemma ExtendedSaveSucceeds(entries: SessionStorage.Entries<Sessions.SessionState>, start: Sessions.Record,
                             state: Sessions.SessionState, now: int)
    ensures SessionStorage.Put(entries, SessionStorage.Record(start.id, SessionTiming.Extended(start.expiry, now), state), now, true).Ok?
  {
    SessionStorage.PutFails(entries, SessionStorage.Record(start.id, SessionTiming.Extended(start.expiry, now), state), now, true);
  }

  /** The cookie set for a minted session resumes that session: a later request
      presenting it, before the session expires, starts from the saved id, expiry
      and state. */
  lemma IssuedCookieResumes(entries: SessionStorage.Entries<Sessions.SessionState>, settings: CookieSettings,
                            secret: Secret, record: Sessions.Record, now: int, later: int, hmac: Mac, blake3: Hash)
    requires record.id == GenerateId(secret, blake3)
    requires SessionStorage.Put(entries, record, now, true).Ok?
    requires now <= later < record.expiry
    ensures var jar := map[CookieName := SessionCookie(settings, secret, record.expiry, hmac).value];
      Resolve(SessionStorage.Put(entries, record, now, true).value, jar, settings.key, later, true, hmac, blake3) == Some(record)
  {
    CheckSigned(settings.key, secret, hmac);
    SessionStorage.FetchAfterPut(entries, record, now, later);
  }
}
