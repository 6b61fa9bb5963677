/** The application's own, older copy of the session record (src/session.rs). It
    differs from the `session` crate in its states (no return address, no provider
    in a pending registration), in checking the cookie itself (`from_cookie` yields
    the id to load) and in building the cookie from the session (`into_cookie`). */
module AppSessions {
  import opened Common
  import opened SessionToken
  import SessionTiming
  import SessionStorage
  import Base64Url
  import Utf8
  import Http

  datatype OAuthState = OAuthState(provider: string, state: string)

  datatype RegistrationNeededState = RegistrationNeededState(id: string, email: string)

  /** The authentication states a user can be in. */
  datatype SessionState =
    | Unauthenticated
    | OAuth(oauth: OAuthState)
    | RegistrationNeeded(registration: RegistrationNeededState)
    | Authenticated(userId: I32)

  /** `SessionState::name`. */
  function Name(s: SessionState): string {
    match s
    case Unauthenticated => "unauthenticated"
    case OAuth(_) => "oauth"
    case RegistrationNeeded(_) => "registration needed"
    case Authenticated(_) => "authenticated"
  }

  /** Two states have the same name exactly when they are the same variant. */
  lemma NameIdentifiesVariant(a: SessionState, b: SessionState)
    ensures Name(a) == Name(b) <==>
      (a.Unauthenticated? == b.Unauthenticated? && a.OAuth? == b.OAuth? &&
       a.RegistrationNeeded? == b.RegistrationNeeded? && a.Authenticated? == b.Authenticated?)
  {
    var u, o, r, t := "unauthenticated", "oauth", "registration needed", "authenticated";
    assert u[0] != o[0] && u[0] != r[0] && u[0] != t[0] && o[0] != r[0] && o[0] != t[0] && r[0] != t[0];
  }

  /** `SessionState::id`: the user id, present only once authenticated. */
  function UserId(s: SessionState): (r: Option<I32>)
    ensures r.Some? <==> s.Authenticated?
    ensures r.Some? ==> r.value == s.userId
  {
    match s
    case Authenticated(id) => Some(id)
    case _ => None
  }

  /** `SessionState::oauth`. */
  function OAuthOf(provider: string, state: string): (s: SessionState)
    ensures s.OAuth? && s.oauth.provider == provider && s.oauth.state == state
  {
    OAuth(OAuthState(provider, state))
  }

  /** `SessionState::registration_needed`. */
  function RegistrationNeededOf(id: string, email: string): (s: SessionState)
    ensures s.RegistrationNeeded? && s.registration.id == id && s.registration.email == email
  {
    RegistrationNeeded(RegistrationNeededState(id, email))
  }

  /** `SessionState::authenticated`. */
  function AuthenticatedOf(id: I32): (s: SessionState)
    ensures UserId(s) == Some(id)
  {
    Authenticated(id)
  }

  type Record = SessionStorage.Record<SessionState>

  class Session {
    var id: string
    var expiry: int
    var state: SessionState
    /** Skipped by serde: only a session created in this request has it. */
    var cookieValue: Option<Secret>

    /** `Session::default`, with the random secret and the clock as parameters. */
    constructor Default(secret: Secret, now: int, blake3: Hash)
      ensures id == GenerateId(secret, blake3)
      ensures expiry == now + SessionTiming.InitialLifetime
      ensures state == Unauthenticated
      ensures cookieValue == Some(secret)
    {
      id := GenerateId(secret, blake3);
      expiry := now + SessionTiming.InitialLifetime;
      state := Unauthenticated;
      cookieValue := Some(secret);
    }

    /** A session deserialised from the store: the secret is never stored. */
    constructor FromRecord(r: Record)
      ensures ToRecord() == r
      ensures cookieValue == None
    {
      id := r.id;
      expiry := r.expiry;
      state := r.state;
      cookieValue := None;
    }

    /** What serde writes for this session. */
    function ToRecord(): (r: Record)
      reads this
      ensures r.id == id && r.expiry == expiry && r.state == state
    {
      SessionStorage.Record(id, expiry, state)
    }

    /** `is_expired`: expired exactly once the expiry is strictly in the past,
        so a session expiring this very instant is not yet expired. An expired
        session is one the store would keep for no time at all, and one still
        valid at this instant has a positive time-to-live unless it expires
        exactly now. */
    function IsExpired(now: int): (r: bool)
      reads this
      ensures r <==> SessionTiming.IsExpired(expiry, now)
      ensures r ==> SessionTiming.Ttl(expiry, now) == 0
      ensures !r && expiry != now ==> SessionTiming.Ttl(expiry, now) > 0
    {
      expiry < now
    }

    /** `extend_if_expiring`, with the clock reading as a parameter. */
    method ExtendIfExpiring(now: int)
      modifies this
      ensures expiry == SessionTiming.Extended(old(expiry), now)
      ensures id == old(id) && state == old(state) && cookieValue == old(cookieValue)
    {
      if expiry - SessionTiming.ExtensionThreshold < now {
        expiry := now + SessionTiming.ExtensionPeriod;
      }
    }

    /** `into_cookie`: only a session holding its secret gets a cookie, carrying the
        signed token with the configured attributes. */
    method IntoCookie(settings: CookieSettings, hmac: Mac) returns (c: Option<Http.Cookie>)
      ensures c.Some? <==> cookieValue.Some?
      ensures c.Some? ==> c.value == SessionCookie(settings, cookieValue.value, expiry, hmac)
      ensures c.Some? ==>
        (|c.value.value| == SerializedLength && Check(c.value.value, settings.key, hmac) == Valid(cookieValue.value))
    {
      if cookieValue.None? {
        return None;
      }
      var secret := cookieValue.value;
      var data: Bytes := [];
      data := data + secret;
      assert data == secret;
      var signature := hmac(Utf8.Encode(settings.key), data);
      data := data + signature;
      var value := Base64Url.Encode(data);
      SignedTokenLength(settings.key, secret, hmac);
      CheckSigned(settings.key, secret, hmac);
      c := Some(Http.Cookie(CookieName, value, true, Http.Lax, settings.secure, settings.domain, expiry, "/"));
    }

    /** `from_cookie`: the id of the session a request's cookie names, when the
        cookie exists and passes the length, base64url and signature checks. */
    static method FromCookie(jar: map<string, string>, signingKey: string, hmac: Mac, blake3: Hash)
      returns (id: Option<string>)
      ensures id.Some? <==> CookieName in jar && Check(jar[CookieName], signingKey, hmac).Valid?
      ensures id.Some? ==> id.value == GenerateId(Check(jar[CookieName], signingKey, hmac).value, blake3)
    {
      if CookieName !in jar {
        return None;
      }
      var signedValue := jar[CookieName];
      if Utf8.ByteLength(signedValue) != SerializedLength {
        return None;
      }
      var decoded := Base64Url.Decode(signedValue);
      if decoded.None? {
        return None;
      }
      var data := decoded.value;
      AsciiTokenLength(signedValue);
      var value, signature := data[..SignatureStartIndex], data[SignatureStartIndex..];
      if hmac(Utf8.Encode(signingKey), value) != signature {
        return None;
      }
      id := Some(GenerateId(value, blake3));
    }
  }

  /** `from_cookie` applied to the cookie `into_cookie` builds for a default
      session yields that session's id. */
  lemma CookieRoundTrip(settings: CookieSettings, secret: Secret, expiry: int, hmac: Mac, blake3: Hash)
    ensures var jar := map[CookieName := SessionCookie(settings, secret, expiry, hmac).value];
      Check(jar[CookieName], settings.key, hmac) == Valid(secret) &&
      GenerateId(Check(jar[CookieName], settings.key, hmac).value, blake3) == GenerateId(secret, blake3)
  {
    CheckSigned(settings.key, secret, hmac);
  }
}
