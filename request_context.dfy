/** The context endpoint (src/handlers/context.rs): which scope a request is
    in, from an event slug or the host it was made to, and who the user is,
    from the session token. Database lookups are parameters; the session is
    looked up in the `session` crate's store. */
module RequestContext {
  import opened Common
  import Database
  import SessionToken
  import SessionStorage
  import SessionManager
  import Sessions
  import Events
  import Users
  import Domains
  import HandlerErrors

  datatype EventScope = EventScope(event: string, organizationId: I32)

  datatype Scope = Admin | User | Event(scope: EventScope)

  /** The query names either an event by slug or the domain the request came to. */
  datatype ScopeParams = Slug(slug: string) | Domain(domain: string)

  /** An organizer's role within an organization (database/src/organizer.rs). */
  datatype OrganizerRole = DirectorRole | ManagerRole | OrganizerRole

  datatype UserRole = Participant | Director | Manager | Organizer

  /** `From<Role> for UserRole`. */
  function ToUserRole(r: OrganizerRole): (u: UserRole)
    ensures u != Participant
  {
    match r
    case DirectorRole => Director
    case ManagerRole => Manager
    case OrganizerRole => Organizer
  }

  datatype UserContext =
    | Unauthenticated
    | OAuth
    | RegistrationNeeded(provider: string, id: string, email: string)
    | Authenticated(userId: I32, givenName: string, familyName: string, email: string,
                    role: Option<UserRole>, isAdmin: bool)

  type EventLookup = string -> Result<Option<Events.EventRow>, Database.Error>

  /** The scope of an event lookup's outcome. */
  function ScopeOfEvent(found: Result<Option<Events.EventRow>, Database.Error>): (r: Result<Scope, HandlerErrors.Error>)
    ensures found.Err? ==> r == Err(HandlerErrors.Database(found.error))
    ensures found == Ok(None) ==> r == Err(HandlerErrors.EventNotFound)
    ensures found.Ok? && found.value.Some? ==>
      r == Ok(Event(EventScope(found.value.value.slug, found.value.value.organizationId)))
  {
    match found
    case Err(e) => Err(HandlerErrors.Database(e))
    case Ok(None) => Err(HandlerErrors.EventNotFound)
    case Ok(Some(event)) => Ok(Event(EventScope(event.slug, event.organizationId)))
  }

  /** `determine_scope_context`. `host` is the authority parser (`None` for a
      domain that is not a valid authority); `findEvent` answers `Event::find`
      by slug and `findByCustomDomain` `Event::find_by_custom_domain`. */
  function DetermineScope(params: ScopeParams, domains: Domains.Domains, host: string -> Option<string>,
                          findEvent: EventLookup, findByCustomDomain: EventLookup): (r: Result<Scope, HandlerErrors.Error>)
    ensures params.Slug? ==> r == ScopeOfEvent(findEvent(params.slug))
    ensures params.Domain? && host(params.domain).None? ==> r == Err(HandlerErrors.EventNotFound)
    ensures params.Domain? && host(params.domain).Some? ==>
      var h := host(params.domain).value;
      (Domains.RequiresAdmin(domains, h) ==> r == Ok(Admin)) &&
      (!Domains.RequiresAdmin(domains, h) && Domains.RequiresUser(domains, h) ==> r == Ok(User)) &&
      (!Domains.RequiresAdmin(domains, h) && !Domains.RequiresUser(domains, h) ==>
        var slug := Domains.ExtractSlugForSubdomain(domains, h);
        (slug.Some? ==> r == ScopeOfEvent(findEvent(slug.value))) &&
        (slug.None? ==> r == ScopeOfEvent(findByCustomDomain(h))))
  {
    match params
    case Slug(slug) => ScopeOfEvent(findEvent(slug))
    case Domain(domain) =>
      match host(domain)
      case None => Err(HandlerErrors.FromInvalidUri())
      case Some(h) =>
        if Domains.RequiresAdmin(domains, h) then Ok(Admin)
        else if Domains.RequiresUser(domains, h) then Ok(User)
        else match Domains.ExtractSlugForSubdomain(domains, h)
          case Some(slug) => ScopeOfEvent(findEvent(slug))
          case None => ScopeOfEvent(findByCustomDomain(h))
  }

  /** A lookup found the event a scope names. */
  predicate Names(found: Result<Option<Events.EventRow>, Database.Error>, scope: EventScope) {
    found.Ok? && found.value.Some? &&
    found.value.value.slug == scope.event && found.value.value.organizationId == scope.organizationId
  }

  /** The admin and user scopes come only from their configured hosts, and an
      event scope always names an event that one of the lookups found. */
  lemma ScopeOutcomes(params: ScopeParams, domains: Domains.Domains, host: string -> Option<string>,
                      findEvent: EventLookup, findByCustomDomain: EventLookup)
    ensures var r := DetermineScope(params, domains, host, findEvent, findByCustomDomain);
      (r == Ok(Admin) ==> params.Domain? && Domains.RequiresAdmin(domains, host(params.domain).value)) &&
      (r == Ok(User) ==> params.Domain? && Domains.RequiresUser(domains, host(params.domain).value)) &&
      (r.Ok? && r.value.Event? ==>
        exists key :: Names(findEvent(key), r.value.scope) || Names(findByCustomDomain(key), r.value.scope))
  {
    var r := DetermineScope(params, domains, host, findEvent, findByCustomDomain);
    if r.Ok? && r.value.Event? {
      if params.Slug? {
        assert Names(findEvent(params.slug), r.value.scope);
      } else {
        var h := host(params.domain).value;
        var slug := Domains.ExtractSlugForSubdomain(domains, h);
        if slug.Some? {
          assert Names(findEvent(slug.value), r.value.scope);
        } else {
          assert Names(findByCustomDomain(h), r.value.scope);
        }
      }
    }
  }

  /** The hosted domain of an event resolves to that event, unless the host is
      reserved for the admin or user scope. */
  lemma HostedDomainResolves(domains: Domains.Domains, slug: string, host: string -> Option<string>,
                             findEvent: EventLookup, findByCustomDomain: EventLookup, d: string)
    requires host(d) == Some(Domains.ForEvent(domains, slug))
    requires !Domains.RequiresAdmin(domains, Domains.ForEvent(domains, slug))
    requires !Domains.RequiresUser(domains, Domains.ForEvent(domains, slug))
    ensures DetermineScope(Domain(d), domains, host, findEvent, findByCustomDomain) == ScopeOfEvent(findEvent(slug))
  {
    Domains.ExtractForEvent(domains, slug);
  }

  type ParticipantLookup = (I32, string) -> Result<bool, Database.Error>
  type OrganizerLookup = (I32, I32) -> Result<Option<OrganizerRole>, Database.Error>

  /** `determine_role`: no role outside an event; within one, being a
      participant of the event comes first, then an organizer role in its
      organization. */
  function DetermineRole(scope: Scope, userId: I32, isParticipant: ParticipantLookup, isOrganizer: OrganizerLookup)
    : (r: Result<Option<UserRole>, Database.Error>)
    ensures !scope.Event? ==> r == Ok(None)
    ensures scope.Event? ==>
      var p := isParticipant(userId, scope.scope.event);
      var o := isOrganizer(userId, scope.scope.organizationId);
      (p.Err? ==> r == Err(p.error)) &&
      (p == Ok(true) ==> r == Ok(Some(Participant))) &&
      (p == Ok(false) && o.Err? ==> r == Err(o.error)) &&
      (p == Ok(false) && o.Ok? && o.value.Some? ==> r == Ok(Some(ToUserRole(o.value.value)))) &&
      (p == Ok(false) && o == Ok(None) ==> r == Ok(None))
  {
    match scope
    case Event(event) =>
      (match isParticipant(userId, event.event)
       case Err(e) => Err(e)
       case Ok(true) => Ok(Some(Participant))
       case Ok(false) =>
         match isOrganizer(userId, event.organizationId)
         case Err(e) => Err(e)
         case Ok(None) => Ok(None)
         case Ok(Some(role)) => Ok(Some(ToUserRole(role))))
    case _ => Ok(None)
  }

  /** Being a participant takes precedence: the role is `Participant` exactly
      when the user participates in the scope's event, whatever their
      organizer role. */
  lemma ParticipantPrecedence(scope: Scope, userId: I32, isParticipant: ParticipantLookup, isOrganizer: OrganizerLookup)
    ensures DetermineRole(scope, userId, isParticipant, isOrganizer) == Ok(Some(Participant)) <==>
      scope.Event? && isParticipant(userId, scope.scope.event) == Ok(true)
  {
    if scope.Event? && isParticipant(userId, scope.scope.event) == Ok(false) {
      var o := isOrganizer(userId, scope.scope.organizationId);
      if o.Ok? && o.value.Some? {
        assert ToUserRole(o.value.value) != Participant;
      }
    }
  }

  /** `load_from_token` followed by `.map(|s| s.state)`: the state of the
      session a token names, if it passes the checks and the store has it. */
  function TokenState(token: string, key: string, hmac: SessionToken.Mac, blake3: SessionToken.Hash,
                      entries: SessionStorage.Entries<Sessions.SessionState>, now: int, reachable: bool)
    : (r: Result<Option<Sessions.SessionState>, SessionStorage.StoreError>)
    ensures !SessionToken.Check(token, key, hmac).Valid? ==> r == Ok(None)
    ensures SessionToken.Check(token, key, hmac).Valid? ==>
      var f := SessionStorage.Fetch(entries, SessionToken.GenerateId(SessionToken.Check(token, key, hmac).value, blake3), now, reachable);
      (f.Err? ==> r == Err(f.error)) && (f == Ok(None) ==> r == Ok(None)) &&
      (f.Ok? && f.value.Some? ==> r == Ok(Some(f.value.value.state)))
  {
    match SessionManager.Loaded(token, key, hmac, blake3, entries, now, reachable)
    case Err(e) => Err(e)
    case Ok(None) => Ok(None)
    case Ok(Some(record)) => Ok(Some(record.state))
  }

  /** `determine_user_context`. `None` stands for the panic when an
      authenticated session names a user that does not exist. */
  function DetermineUser(loaded: Result<Option<Sessions.SessionState>, SessionStorage.StoreError>, scope: Scope,
                         findUser: I32 -> Result<Option<Users.UserRow>, Database.Error>,
                         isParticipant: ParticipantLookup, isOrganizer: OrganizerLookup)
    : (r: Option<Result<UserContext, HandlerErrors.Error>>)
    ensures loaded.Err? ==> r == Some(Err(HandlerErrors.Session(loaded.error)))
    ensures loaded == Ok(None) || loaded == Ok(Some(Sessions.Unauthenticated)) ==> r == Some(Ok(Unauthenticated))
    ensures loaded.Ok? && loaded.value.Some? && loaded.value.value.OAuth? ==> r == Some(Ok(OAuth))
    ensures loaded.Ok? && loaded.value.Some? && loaded.value.value.RegistrationNeeded? ==>
      var reg := loaded.value.value.registration;
      r == Some(Ok(RegistrationNeeded(reg.provider, reg.id, reg.email)))
    ensures r.None? <==>
      loaded.Ok? && loaded.value.Some? && loaded.value.value.Authenticated? &&
      findUser(loaded.value.value.userId) == Ok(None)
    ensures r.Some? && r.value.Ok? && r.value.value.Authenticated? ==>
      loaded.Ok? && loaded.value.Some? && loaded.value.value.Authenticated? &&
      var found := findUser(loaded.value.value.userId);
      found.Ok? && found.value.Some? &&
      var u := found.value.value;
      var ctx := r.value.value;
      ctx.userId == u.id && ctx.givenName == u.givenName && ctx.familyName == u.familyName &&
      ctx.email == u.primaryEmail && ctx.isAdmin == u.isAdmin &&
      Ok(ctx.role) == DetermineRole(scope, u.id, isParticipant, isOrganizer)
  {
    match loaded
    case Err(e) => Some(Err(HandlerErrors.Session(e)))
    case Ok(None) => Some(Ok(Unauthenticated))
    case Ok(Some(state)) =>
      match state
      case Unauthenticated => Some(Ok(Unauthenticated))
      case OAuth(_) => Some(Ok(OAuth))
      case RegistrationNeeded(reg) => Some(Ok(RegistrationNeeded(reg.provider, reg.id, reg.email)))
      case Authenticated(id) =>
        match findUser(id)
        case Err(e) => Some(Err(HandlerErrors.Database(e)))
        case Ok(None) => None
        case Ok(Some(u)) =>
          match DetermineRole(scope, u.id, isParticipant, isOrganizer)
          case Err(e) => Some(Err(HandlerErrors.Database(e)))
          case Ok(role) =>
            Some(Ok(Authenticated(u.id, u.givenName, u.familyName, u.primaryEmail, role, u.isAdmin)))
  }

  /** A token that fails the length, encoding or signature check, or names
      no stored session, makes the user unauthenticated. */
  lemma UnknownTokenIsUnauthenticated(token: string, key: string, hmac: SessionToken.Mac, blake3: SessionToken.Hash,
                                      entries: SessionStorage.Entries<Sessions.SessionState>, now: int,
                                      reachable: bool, scope: Scope,
                                      findUser: I32 -> Result<Option<Users.UserRow>, Database.Error>,
                                      isParticipant: ParticipantLookup, isOrganizer: OrganizerLookup)
    requires TokenState(token, key, hmac, blake3, entries, now, reachable) == Ok(None)
    ensures DetermineUser(TokenState(token, key, hmac, blake3, entries, now, reachable), scope,
                          findUser, isParticipant, isOrganizer) == Some(Ok(Unauthenticated))
  {
  }

  /** `context`: the scope first, then the user; a scope error stops before
      the session is consulted. */
  function Context(params: ScopeParams, loaded: Result<Option<Sessions.SessionState>, SessionStorage.StoreError>,
                   domains: Domains.Domains, host: string -> Option<string>,
                   findEvent: EventLookup, findByCustomDomain: EventLookup,
                   findUser: I32 -> Result<Option<Users.UserRow>, Database.Error>,
                   isParticipant: ParticipantLookup, isOrganizer: OrganizerLookup)
    : (r: Option<Result<(Scope, UserContext), HandlerErrors.Error>>)
    ensures var s := DetermineScope(params, domains, host, findEvent, findByCustomDomain);
      (s.Err? ==> r == Some(Err(s.error))) &&
      (s.Ok? ==>
        var u := DetermineUser(loaded, s.value, findUser, isParticipant, isOrganizer);
        (u.None? <==> r.None?) &&
        (u.Some? && u.value.Err? ==> r == Some(Err(u.value.error))) &&
        (u.Some? && u.value.Ok? ==> r == Some(Ok((s.value, u.value.value)))))
  {
    match DetermineScope(params, domains, host, findEvent, findByCustomDomain)
    case Err(e) => Some(Err(e))
    case Ok(scope) =>
      match DetermineUser(loaded, scope, findUser, isParticipant, isOrganizer)
      case None => None
      case Some(Err(e)) => Some(Err(e))
      case Some(Ok(user)) => Some(Ok((scope, user)))
  }
}
