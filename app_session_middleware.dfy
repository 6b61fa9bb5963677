/** The application's older per-request session lifecycle
    (src/session/middleware.rs): the cookie is checked first and yields the id to
    load; a missing id, a failed load and a missing session all give a fresh
    default session; after the handler the session is extended, saved once, and
    its cookie set only if it was minted in this request. The handler is a
    parameter from the state it is given to the state it leaves plus its
    response, or a failure. One clock reading `now` serves the whole request. */
module AppSessionMiddleware {
  import opened Common
  import opened SessionToken
  import SessionTiming
  import SessionStorage
  import Http
  import AppSessions
  import AppSessionStore

  type Jar = map<string, string>

  /** The session id the request's cookie carries, if it passes every check. */
  function CookieId(jar: Jar, key: string, hmac: Mac, blake3: Hash): Option<string> {
    if CookieName in jar && Check(jar[CookieName], key, hmac).Valid?
    then Some(GenerateId(Check(jar[CookieName], key, hmac).value, blake3))
    else None
  }

  /** The stored session an id resumes: a store error or a missing session
      resumes nothing. */
  function Resume(entries: SessionStorage.Entries<AppSessions.SessionState>, id: Option<string>, now: int,
                  reachable: bool): Option<AppSessions.Record>
  {
    if id.None? then None
    else match SessionStorage.Fetch(entries, id.value, now, reachable)
      case Ok(Some(record)) => Some(record)
      case _ => None
  }

  /** The session a request starts with: the resumed one, or a fresh default. */
  function Initial(resumed: Option<AppSessions.Record>, secret: Secret, now: int, blake3: Hash): AppSessions.Record {
    match resumed
    case Some(record) => record
    case None => SessionStorage.Record(GenerateId(secret, blake3), now + SessionTiming.InitialLifetime, AppSessions.Unauthenticated)
  }

  const SaveFailed: Http.Response := Http.TextResponse(Http.InternalServerError, "internal error")

  class SessionLayer {
    const store: AppSessionStore.Store
    const settings: CookieSettings
    const hmac: Mac
    const blake3: Hash

    /** `SessionLayer::new`. */
    constructor(store: AppSessionStore.Store, domain: string, secure: bool, signingKey: string, hmac: Mac, blake3: Hash)
      ensures this.store == store && this.settings == CookieSettings(domain, signingKey, secure)
      ensures this.hmac == hmac && this.blake3 == blake3
    {
      this.store := store;
      this.settings := CookieSettings(domain, signingKey, secure);
      this.hmac := hmac;
      this.blake3 := blake3;
    }

    /** `load_or_create`: no id costs no store lookup; an id is looked up once. */
    method LoadOrCreate(id: Option<string>, now: int, reachable: bool, secret: Secret) returns (session: AppSessions.Session)
      modifies store`lookups
      ensures fresh(session)
      ensures id.None? ==> store.lookups == old(store.lookups)
      ensures id.Some? ==> store.lookups == old(store.lookups) + [SessionStorage.Key(id.value)]
      ensures var resumed := Resume(store.entries, id, now, reachable);
        session.ToRecord() == Initial(resumed, secret, now, blake3) &&
        (resumed.None? ==> session.cookieValue == Some(secret)) &&
        (resumed.Some? ==> session.cookieValue == None)
    {
      if id.Some? {
        var loaded := store.Load(id.value, now, reachable);
        if loaded.Ok? && loaded.value.Some? {
          session := loaded.value.value;
        } else {
          session := new AppSessions.Session.Default(secret, now, blake3);
        }
      } else {
        session := new AppSessions.Session.Default(secret, now, blake3);
      }
    }

    /** `SessionMiddleware::call`. A failing handler fails the request with no
        extension and no save. Otherwise the session is extended and saved once;
        a failed save replaces the response by a 500 and sets no cookie; a
        successful one passes the handler's response on, with the session cookie
        added exactly when the session was minted in this request. */
    method Call<E>(jar: Jar, now: int, secret: Secret, loadReachable: bool, saveReachable: bool,
                   handler: AppSessions.SessionState -> Result<(AppSessions.SessionState, Http.Response), E>)
      returns (r: Result<Http.Response, E>)
      modifies store
      ensures var resumed := Resume(old(store.entries), CookieId(jar, settings.key, hmac, blake3), now, loadReachable);
        var start := Initial(resumed, secret, now, blake3);
        match handler(start.state)
        case Err(e) =>
          r == Err(e) && store.entries == old(store.entries)
        case Ok((state, response)) =>
          var saved := SessionStorage.Record(start.id, SessionTiming.Extended(start.expiry, now), state);
          var put := SessionStorage.Put(old(store.entries), saved, now, saveReachable);
          if put.Err? then
            r == Ok(SaveFailed) && store.entries == old(store.entries)
          else
            store.entries == put.value &&
            r == Ok(if resumed.None?
                    then Http.WithCookie(response, SessionCookie(settings, secret, saved.expiry, hmac))
                    else response)
    {
      var id := AppSessions.Session.FromCookie(jar, settings.key, hmac, blake3);
      var session := LoadOrCreate(id, now, loadReachable, secret);
      var outcome := handler(session.state);
      if outcome.Err? {
        return Err(outcome.error);
      }
      var (state, response) := outcome.value;
      session.state := state;
      session.ExtendIfExpiring(now);
      var saved := store.Save(session, now, saveReachable);
      if saved.Err? {
        return Ok(SaveFailed);
      }
      var cookie := session.IntoCookie(settings, hmac);
      if cookie.Some? {
        r := Ok(Http.WithCookie(response, cookie.value));
      } else {
        r := Ok(response);
      }
    }
  }

  /** The cookie set for a minted session resumes that session: a later request
      presenting it before the session expires starts from the saved record. */
  lemma IssuedCookieResumes(entries: SessionStorage.Entries<AppSessions.SessionState>, settings: CookieSettings,
                            secret: Secret, record: AppSessions.Record, now: int, later: int, hmac: Mac, blake3: Hash)
    requires record.id == GenerateId(secret, blake3)
    requires SessionStorage.Put(entries, record, now, true).Ok?
    requires now <= later < record.expiry
    ensures var jar := map[CookieName := SessionCookie(settings, secret, record.expiry, hmac).value];
      Resume(SessionStorage.Put(entries, record, now, true).value, CookieId(jar, settings.key, hmac, blake3), later, true) == Some(record)
  {
    CheckSigned(settings.key, secret, hmac);
    SessionStorage.FetchAfterPut(entries, record, now, later);
  }
}
