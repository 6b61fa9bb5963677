/** `Manager` of the `session` crate (session/src/lib.rs): finds the session a
    request's token names, saves sessions, and builds the Set-Cookie for a session
    minted in this request. HMAC-SHA256 and blake3 are fixed at construction. */
module SessionManager {
  import opened Common
  import opened SessionToken
  import SessionStorage
  import SessionTiming
  import Base64Url
  import Utf8
  import Http
  import Sessions
  import SessionStore

  /** The cookie jar of a request, by cookie name. */
  type Jar = map<string, string>

  /** A load result agrees with what the store holds: the same error, no session,
      or a session carrying exactly the stored fields and no secret. */
  ghost predicate LoadedAs(r: Result<Option<Sessions.Session>, SessionStorage.StoreError>,
                           f: Result<Option<Sessions.Record>, SessionStorage.StoreError>)
    reads if r.Ok? && r.value.Some? then {r.value.value} else {}
  {
    match r
    case Err(e) => f == Err(e)
    case Ok(None) => f == Ok(None)
    case Ok(Some(s)) => f == Ok(Some(s.ToRecord())) && s.cookieValue == None
  }

  /** What `load_from_token` finds, on values: a token that fails the checks
      names no session; a valid one names whatever the store holds under the
      id derived from its secret. */
  function Loaded(token: string, key: string, hmac: Mac, blake3: Hash,
                  entries: SessionStorage.Entries<Sessions.SessionState>, now: int, reachable: bool)
    : Result<Option<Sessions.Record>, SessionStorage.StoreError>
  {
    match Check(token, key, hmac)
    case Valid(secret) => SessionStorage.Fetch(entries, GenerateId(secret, blake3), now, reachable)
    case _ => Ok(None)
  }

  class Manager {
    const store: SessionStore.Store
    const settings: CookieSettings
    const hmac: Mac
    const blake3: Hash

    constructor(store: SessionStore.Store, settings: CookieSettings, hmac: Mac, blake3: Hash)
      ensures this.store == store && this.settings == settings && this.hmac == hmac && this.blake3 == blake3
    {
      this.store := store;
      this.settings := settings;
      this.hmac := hmac;
      this.blake3 := blake3;
    }

    /** `load_from_token`: a token that fails any check is no session and costs no
        store lookup; a valid one is looked up, exactly once, under the id derived
        from its secret. */
    method LoadFromToken(token: string, now: int, reachable: bool)
      returns (r: Result<Option<Sessions.Session>, SessionStorage.StoreError>)
      modifies store`lookups
      ensures !Check(token, settings.key, hmac).Valid? ==>
        r == Ok(None) && store.lookups == old(store.lookups)
      ensures Check(token, settings.key, hmac).Valid? ==>
        var id := GenerateId(Check(token, settings.key, hmac).value, blake3);
        store.lookups == old(store.lookups) + [SessionStorage.Key(id)] &&
        LoadedAs(r, SessionStorage.Fetch(store.entries, id, now, reachable))
      ensures LoadedAs(r, Loaded(token, settings.key, hmac, blake3, store.entries, now, reachable))
      ensures r.Ok? && r.value.Some? ==> fresh(r.value.value)
    {
      if Utf8.ByteLength(token) != SerializedLength {
        return Ok(None);
      }
      var decoded := Base64Url.Decode(token);
      if decoded.None? {
        return Ok(None);
      }
      var data := decoded.value;
      AsciiTokenLength(token);
      var value, signature := data[..SignatureStartIndex], data[SignatureStartIndex..];
      if hmac(Utf8.Encode(settings.key), value) != signature {
        return Ok(None);
      }
      var id := GenerateId(value, blake3);
      r := store.Load(id, now, reachable);
    }

    /** `load_from_cookie`: no `session` cookie is no session. */
    method LoadFromCookie(jar: Jar, now: int, reachable: bool)
      returns (r: Result<Option<Sessions.Session>, SessionStorage.StoreError>)
      modifies store`lookups
      ensures CookieName !in jar ==> r == Ok(None) && store.lookups == old(store.lookups)
      ensures CookieName in jar && !Check(jar[CookieName], settings.key, hmac).Valid? ==>
        r == Ok(None) && store.lookups == old(store.lookups)
      ensures CookieName in jar && Check(jar[CookieName], settings.key, hmac).Valid? ==>
        var id := GenerateId(Check(jar[CookieName], settings.key, hmac).value, blake3);
        store.lookups == old(store.lookups) + [SessionStorage.Key(id)] &&
        LoadedAs(r, SessionStorage.Fetch(store.entries, id, now, reachable))
      ensures r.Ok? && r.value.Some? ==> fresh(r.value.value)
    {
      if CookieName in jar {
        r := LoadFromToken(jar[CookieName], now, reachable);
      } else {
        r := Ok(None);
      }
    }

    /** `save`. */
    method Save(session: Sessions.Session, now: int, reachable: bool) returns (r: Result<(), SessionStorage.StoreError>)
      modifies store`entries
      ensures var put := SessionStorage.Put(old(store.entries), session.ToRecord(), now, reachable);
        (put.Ok? ==> r == Ok(()) && store.entries == put.value) &&
        (put.Err? ==> r == Err(put.error) && store.entries == old(store.entries))
    {
      r := store.Save(session, now, reachable);
    }

    /** `build_cookie`: only a session holding its secret, that is one minted in
        this request, gets a cookie; the cookie carries the signed token and is
        HttpOnly, SameSite=Lax, Path=/, with the configured Domain and Secure flag
        and the session's expiry. */
    method BuildCookie(session: Sessions.Session) returns (c: Option<Http.Cookie>)
      ensures c.Some? <==> session.cookieValue.Some?
      ensures c.Some? ==> c.value == SessionCookie(settings, session.cookieValue.value, session.expiry, hmac)
      ensures c.Some? ==>
        (|c.value.value| == SerializedLength && Check(c.value.value, settings.key, hmac) == Valid(session.cookieValue.value))
    {
      if session.cookieValue.None? {
        return None;
      }
      var secret := session.cookieValue.value;
      var data: Bytes := [];
      data := data + secret;
      assert data == secret;
      var signature := hmac(Utf8.Encode(settings.key), data);
      data := data + signature;
      var value := Base64Url.Encode(data);
      SignedTokenLength(settings.key, secret, hmac);
      CheckSigned(settings.key, secret, hmac);
      c := Some(Http.Cookie(CookieName, value, true, Http.Lax, settings.secure, settings.domain, session.expiry, "/"));
    }
  }
}
