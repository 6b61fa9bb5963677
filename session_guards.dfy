/** The request guards over the application's session (src/session/extract):
    each admits a request only when the session is in the state it expects,
    rejects it otherwise with a status that depends on the state actually found,
    and offers the transitions allowed from its state. A guard built over a
    mutable handle may change the state; one over an immutable handle may only
    read it. Only the state is ever changed; the id, expiry and cookie secret stay. */
module SessionGuards {
  import opened Common
  import Http
  import AppSessions
  import Users
  import Database

  /** Whether the guard holds the session's write lock (`Mutable`) or a read
      lock (`Immutable`). */
  datatype Access = Mutable | Immutable

  /** `InvalidSessionState`: the status and the message of a rejection. */
  datatype InvalidSessionState = InvalidSessionState(status: nat, message: string)

  /** `InvalidSessionState::from`: an anonymous visitor is unauthorized, a user
      who has not finished registering is told so, and an authenticated user is
      forbidden. */
  function RejectionFor(s: AppSessions.SessionState): (r: InvalidSessionState)
    ensures r.status == Http.Unauthorized <==> s.Unauthenticated? || s.OAuth?
    ensures r.status == Http.Forbidden <==> s.RegistrationNeeded? || s.Authenticated?
    ensures r.message == "registration required" <==> s.RegistrationNeeded?
    ensures r.message == "unauthorized" <==> s.Unauthenticated? || s.OAuth?
    ensures r.message == "forbidden" <==> s.Authenticated?
  {
    match s
    case Unauthenticated => InvalidSessionState(Http.Unauthorized, "unauthorized")
    case OAuth(_) => InvalidSessionState(Http.Unauthorized, "unauthorized")
    case RegistrationNeeded(_) => InvalidSessionState(Http.Forbidden, "registration required")
    case Authenticated(_) => InvalidSessionState(Http.Forbidden, "forbidden")
  }

  /** Two states get the same rejection exactly when both are anonymous or both
      are the same signed-in state. */
  lemma RejectionClasses(a: AppSessions.SessionState, b: AppSessions.SessionState)
    ensures RejectionFor(a) == RejectionFor(b) <==>
      ((a.Unauthenticated? || a.OAuth?) && (b.Unauthenticated? || b.OAuth?)) ||
      (a.RegistrationNeeded? && b.RegistrationNeeded?) || (a.Authenticated? && b.Authenticated?)
  {
    assert "forbidden"[0] != "registration required"[0];
  }

  /** `IntoResponse for InvalidSessionState`: the recorded status with a JSON
      body holding only the message. */
  function RejectionResponse(r: InvalidSessionState): (resp: Http.Response)
    ensures resp.status == r.status && resp.body == Http.JsonMessage(r.message)
    ensures resp.location == None && resp.cookies == []
  {
    Http.JsonResponse(r.status, r.message)
  }

  /** `UnauthenticatedSession`: admits only anonymous sessions. */
  class UnauthenticatedSession {
    const session: AppSessions.Session
    const access: Access

    constructor(session: AppSessions.Session, access: Access)
      ensures this.session == session && this.access == access
    {
      this.session := session;
      this.access := access;
    }

    /** `into_oauth`: start an OAuth2 login; needs the write lock. */
    method IntoOAuth(provider: string, state: string)
      requires access == Mutable
      modifies session
      ensures session.state == AppSessions.OAuthOf(provider, state)
      ensures session.id == old(session.id) && session.expiry == old(session.expiry)
      ensures session.cookieValue == old(session.cookieValue)
    {
      session.state := AppSessions.OAuthOf(provider, state);
    }
  }

  /** `from_request_parts` for `UnauthenticatedSession`: succeeds exactly on an
      Unauthenticated session and leaves the session untouched either way. */
  method ExtractUnauthenticated(session: AppSessions.Session, access: Access)
    returns (r: Result<UnauthenticatedSession, InvalidSessionState>)
    ensures r.Ok? <==> session.state.Unauthenticated?
    ensures r.Ok? ==> fresh(r.value) && r.value.session == session && r.value.access == access
    ensures r.Err? ==> r.error == RejectionFor(session.state)
  {
    if session.state.Unauthenticated? {
      var guard := new UnauthenticatedSession(session, access);
      r := Ok(guard);
    } else {
      r := Err(RejectionFor(session.state));
    }
  }

  /** `OAuthSession`: admits only sessions in the OAuth2 flow, always with the
      write lock. Unless converted, it demotes the session to Unauthenticated
      when it goes out of scope. */
  class OAuthSession {
    const session: AppSessions.Session

    constructor(session: AppSessions.Session)
      ensures this.session == session
    {
      this.session := session;
    }

    /** `Deref`: the provider and nonce of the flow in progress. */
    function Data(): (d: AppSessions.OAuthState)
      reads this, session
      requires session.state.OAuth?
      ensures AppSessions.OAuthOf(d.provider, d.state) == session.state
    {
      session.state.oauth
    }

    /** `Drop`: a session still in the OAuth2 flow is demoted; any other state,
        such as the result of a conversion, is kept. */
    method Drop()
      modifies session
      ensures old(session.state).OAuth? ==> session.state == AppSessions.Unauthenticated
      ensures !old(session.state).OAuth? ==> session.state == old(session.state)
      ensures session.id == old(session.id) && session.expiry == old(session.expiry)
      ensures session.cookieValue == old(session.cookieValue)
    {
      if session.state.OAuth? {
        session.state := AppSessions.Unauthenticated;
      }
    }

    /** `into_authenticated`, then the guard is dropped: the user is signed in
        and the drop keeps it that way. */
    method IntoAuthenticated(id: I32)
      modifies session
      ensures session.state == AppSessions.AuthenticatedOf(id)
      ensures session.id == old(session.id) && session.expiry == old(session.expiry)
      ensures session.cookieValue == old(session.cookieValue)
    {
      session.state := AppSessions.AuthenticatedOf(id);
      Drop();
    }

    /** `into_registration_needed`, then the guard is dropped: the pending
        registration survives the drop. */
    method IntoRegistrationNeeded(id: string, email: string)
      modifies session
      ensures session.state == AppSessions.RegistrationNeededOf(id, email)
      ensures session.id == old(session.id) && session.expiry == old(session.expiry)
      ensures session.cookieValue == old(session.cookieValue)
    {
      session.state := AppSessions.RegistrationNeededOf(id, email);
      Drop();
    }
  }

  /** `from_request_parts` for `OAuthSession`: succeeds exactly on a session in
      the OAuth2 flow. */
  method ExtractOAuth(session: AppSessions.Session) returns (r: Result<OAuthSession, InvalidSessionState>)
    ensures r.Ok? <==> session.state.OAuth?
    ensures r.Ok? ==> fresh(r.value) && r.value.session == session
    ensures r.Err? ==> r.error == RejectionFor(session.state)
  {
    if session.state.OAuth? {
      var guard := new OAuthSession(session);
      r := Ok(guard);
    } else {
      r := Err(RejectionFor(session.state));
    }
  }

  /** `RegistrationNeededSession`: admits only sessions whose user must still
      complete registration. */
  class RegistrationNeededSession {
    const session: AppSessions.Session
    const access: Access

    constructor(session: AppSessions.Session, access: Access)
      ensures this.session == session && this.access == access
    {
      this.session := session;
      this.access := access;
    }

    /** `Deref`: the provider's id and email of the user registering. */
    function Data(): (d: AppSessions.RegistrationNeededState)
      reads this, session
      requires session.state.RegistrationNeeded?
      ensures AppSessions.RegistrationNeededOf(d.id, d.email) == session.state
    {
      session.state.registration
    }

    /** `into_authenticated`: registration done; needs the write lock. */
    method IntoAuthenticated(id: I32)
      requires access == Mutable
      modifies session
      ensures session.state == AppSessions.AuthenticatedOf(id)
      ensures session.id == old(session.id) && session.expiry == old(session.expiry)
      ensures session.cookieValue == old(session.cookieValue)
    {
      session.state := AppSessions.AuthenticatedOf(id);
    }
  }

  /** `from_request_parts` for `RegistrationNeededSession`. */
  method ExtractRegistrationNeeded(session: AppSessions.Session, access: Access)
    returns (r: Result<RegistrationNeededSession, InvalidSessionState>)
    ensures r.Ok? <==> session.state.RegistrationNeeded?
    ensures r.Ok? ==> fresh(r.value) && r.value.session == session && r.value.access == access
    ensures r.Err? ==> r.error == RejectionFor(session.state)
  {
    if session.state.RegistrationNeeded? {
      var guard := new RegistrationNeededSession(session, access);
      r := Ok(guard);
    } else {
      r := Err(RejectionFor(session.state));
    }
  }

  /** Why `CurrentUser` could not be extracted. */
  datatype CurrentUserRejection =
    | InvalidState(rejection: InvalidSessionState)
    | DatabaseFailure(error: Database.Error)
    | UnknownUser(id: I32)

  /** `IntoResponse for CurrentUserRejection`: a session-state rejection keeps
      its own status; a database failure and a session naming a missing user
      are both a 500 "internal error". */
  function CurrentUserRejectionResponse(r: CurrentUserRejection): (resp: Http.Response)
    ensures r.InvalidState? ==> resp == RejectionResponse(r.rejection)
    ensures !r.InvalidState? ==> resp == Http.TextResponse(Http.InternalServerError, "internal error")
  {
    match r
    case InvalidState(rejection) => RejectionResponse(rejection)
    case DatabaseFailure(_) => Http.TextResponse(Http.InternalServerError, "internal error")
    case UnknownUser(_) => Http.TextResponse(Http.InternalServerError, "internal error")
  }

  /** `CurrentUser`: the signed-in user's row next to the session. */
  class CurrentUser {
    const session: AppSessions.Session
    const access: Access
    const user: Users.User

    constructor(session: AppSessions.Session, access: Access, user: Users.User)
      ensures this.session == session && this.access == access && this.user == user
    {
      this.session := session;
      this.access := access;
      this.user := user;
    }

    /** `logout`: back to anonymous; needs the write lock and touches nothing
        but the state. */
    method Logout()
      requires access == Mutable
      modifies session
      ensures session.state == AppSessions.Unauthenticated
      ensures session.id == old(session.id) && session.expiry == old(session.expiry)
      ensures session.cookieValue == old(session.cookieValue)
    {
      session.state := AppSessions.Unauthenticated;
    }
  }

  /** `from_request_parts` for `CurrentUser`. `find` is the outcome of
      `User::find` for the session's user id, a parameter. */
  method ExtractCurrentUser(session: AppSessions.Session, access: Access,
                            find: Result<Option<Users.UserRow>, Database.Error>)
    returns (r: Result<CurrentUser, CurrentUserRejection>)
    ensures !session.state.Authenticated? ==> r == Err(InvalidState(RejectionFor(session.state)))
    ensures session.state.Authenticated? && find.Err? ==> r == Err(DatabaseFailure(find.error))
    ensures session.state.Authenticated? && find == Ok(None) ==> r == Err(UnknownUser(session.state.userId))
    ensures r.Ok? <==> session.state.Authenticated? && find.Ok? && find.value.Some?
    ensures r.Ok? ==>
      (fresh(r.value) && fresh(r.value.user) && r.value.session == session &&
       r.value.access == access && r.value.user.Row() == find.value.value)
  {
    var id := AppSessions.UserId(session.state);
    if id.None? {
      return Err(InvalidState(RejectionFor(session.state)));
    }
    if find.Err? {
      return Err(DatabaseFailure(find.error));
    }
    if find.value.None? {
      return Err(UnknownUser(id.value));
    }
    var user := new Users.User(find.value.value);
    var current := new CurrentUser(session, access, user);
    r := Ok(current);
  }
}
