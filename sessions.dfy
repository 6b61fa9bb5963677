/** The session record of the `session` crate (session/src/lib.rs): its id,
    expiry, authentication state and, only for a session minted in this request,
    the cookie secret. */
module Sessions {
  import opened Common
  import SessionToken
  import SessionTiming
  import SessionStorage

  datatype OAuthState = OAuthState(provider: string, nonce: string, returnTo: Option<string>)

  datatype RegistrationNeededState = RegistrationNeededState(provider: string, id: string, email: string, returnTo: Option<string>)

  /** The authentication states a user can be in. */
  datatype SessionState =
    | Unauthenticated
    | OAuth(oauth: OAuthState)
    | RegistrationNeeded(registration: RegistrationNeededState)
    | Authenticated(userId: I32)

  /** `SessionState::name`. */
  function Name(s: SessionState): string {
    match s
    case Unauthenticated => "unauthenticated"
    case OAuth(_) => "oauth"
    case RegistrationNeeded(_) => "registration needed"
    case Authenticated(_) => "authenticated"
  }

  /** Two states have the same name exactly when they are the same variant. */
  lemma NameIdentifiesVariant(a: SessionState, b: SessionState)
    ensures Name(a) == Name(b) <==>
      (a.Unauthenticated? == b.Unauthenticated? && a.OAuth? == b.OAuth? &&
       a.RegistrationNeeded? == b.RegistrationNeeded? && a.Authenticated? == b.Authenticated?)
  {
    var u, o, r, t := "unauthenticated", "oauth", "registration needed", "authenticated";
    assert u[0] != o[0] && u[0] != r[0] && u[0] != t[0] && o[0] != r[0] && o[0] != t[0] && r[0] != t[0];
  }

  /** `SessionState::id`: the user id, present only once authenticated. */
  function UserId(s: SessionState): (r: Option<I32>)
    ensures r.Some? <==> s.Authenticated?
    ensures r.Some? ==> r.value == s.userId
  {
    match s
    case Authenticated(id) => Some(id)
    case _ => None
  }

  /** `SessionState::oauth`. */
  function OAuthOf(provider: string, nonce: string, returnTo: Option<string>): (s: SessionState)
    ensures s.OAuth? && s.oauth.provider == provider && s.oauth.nonce == nonce && s.oauth.returnTo == returnTo
  {
    OAuth(OAuthState(provider, nonce, returnTo))
  }

  /** `SessionState::registration_needed`: no provider and no return address yet. */
  function RegistrationNeededOf(id: string, email: string): (s: SessionState)
    ensures s.RegistrationNeeded? && s.registration.id == id && s.registration.email == email
    ensures s.registration.provider == "" && s.registration.returnTo == None
  {
    RegistrationNeeded(RegistrationNeededState("", id, email, None))
  }

  /** `SessionState::authenticated`. */
  function AuthenticatedOf(id: I32): (s: SessionState)
    ensures UserId(s) == Some(id)
  {
    Authenticated(id)
  }

  type Record = SessionStorage.Record<SessionState>

  class Session {
    var id: string
    var expiry: int
    var state: SessionState
    /** Skipped by serde: only a session created in this request has it. */
    var cookieValue: Option<SessionToken.Secret>

    /** `Session::default`: a fresh secret, the id derived from it, fourteen days
        to live, unauthenticated. The secret comes from the random number
        generator and `now` from the clock; both are parameters. */
    constructor Default(secret: SessionToken.Secret, now: int, blake3: SessionToken.Hash)
      ensures id == SessionToken.GenerateId(secret, blake3)
      ensures expiry == now + SessionTiming.InitialLifetime
      ensures state == Unauthenticated
      ensures cookieValue == Some(secret)
    {
      id := SessionToken.GenerateId(secret, blake3);
      expiry := now + SessionTiming.InitialLifetime;
      state := Unauthenticated;
      cookieValue := Some(secret);
    }

    /** A session deserialised from the store: the secret is never stored. */
    constructor FromRecord(r: Record)
      ensures ToRecord() == r
      ensures cookieValue == None
    {
      id := r.id;
      expiry := r.expiry;
      state := r.state;
      cookieValue := None;
    }

    /** What serde writes for this session. */
    function ToRecord(): (r: Record)
      reads this
      ensures r.id == id && r.expiry == expiry && r.state == state
    {
      SessionStorage.Record(id, expiry, state)
    }

    /** `extend_if_expiring`, with the clock reading as a parameter. */
    method ExtendIfExpiring(now: int)
      modifies this
      ensures expiry == SessionTiming.Extended(old(expiry), now)
      ensures id == old(id) && state == old(state) && cookieValue == old(cookieValue)
    {
      if expiry - SessionTiming.ExtensionThreshold < now {
        expiry := now + SessionTiming.ExtensionPeriod;
      }
    }
  }
}
