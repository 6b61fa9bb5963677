# identity: a verified model

This project models the core of the identity service of an event-management
platform. It has these parts:

- **Signed session token.** A random 64-byte secret followed by its HMAC, written as unpadded base64url.
- **Session record.** Its sliding expiry window, and the Redis store that keeps it under `identity:session:{id}` with a TTL. There are two copies of the session code: the `session` crate and the older copy under `src/session*`. Each is modelled.
- **Per-request session lifecycle.** Load or create, run the handler, extend, save once, and set a cookie only for a new session.
- **Session state machine and its request guards.** Unauthenticated, OAuth, registration-needed and authenticated.
- **OAuth2 client.** It builds the authorization URL, exchanges the code with a token-type check, reads the user information (GitHub's primary email), classifies transport errors, and interprets the callback.
- **Request-context resolution.** Event scope from the slug or the host, user context from the session, and the role.
- **Database partial-update builders.** Users, events, organizations and custom domains. It also covers the grouping of events by organization.
- **GraphQL mutations.** Input validation, the result shape and the order of the database statements each mutation issues.
- **Migration planner.** Which migrations `apply` runs and `undo` reverts, with the checks both make first.
- **OTLP protocol parser.** From the logging configuration.

External effects are parameters:

- Redis becomes a map held by a class.
- SQL answers become value parameters, and each mutation returns the list of statements it issued.
- HMAC-SHA256 and blake3 become functions passed in, with fixed output lengths.
- The random secret and nonce are passed in.
- The clock is a parameter, in integer seconds.
- The `url` crate's parser is a function passed in.

Base64url (section 5 of RFC 4648, without padding) and the
application/x-www-form-urlencoded serializer are modelled concretely. That is
how the 96-byte to 128-character token length, the token round trip and the
authorization URL's parameters are proved.

Three behaviours of the code that a reader might not expect, modelled as written:

- The OAuth callback only requires a non-empty `state` (src/oauth.rs:49-52) and does not compare it with a stored nonce. It always uses the provider `github` (src/oauth.rs:58).
- The `session` crate's middleware treats any store error during load as "no session" (session/src/middleware.rs:31-41). It does not fail the request.
- A save whose TTL is zero is sent to Redis as SETEX with 0 seconds, which Redis refuses. The model makes it a Redis error rather than an immediate expiry.

## Model

| member | source | states |
|---|---|---|
| Common.LowerChar | common/src/logging.rs:63 | an ASCII capital becomes its lower-case letter, every other character is kept |
| Common.Lower | common/src/logging.rs:63 | lower-casing keeps the length and lower-cases each character in place |
| Common.LowerOfLowercase | common/src/logging.rs:63 | a string with no ASCII capital is its own lower-case form |
| Common.Digit | src/oauth/client.rs:141 | a decimal digit character for a value below ten |
| Common.NatDigits | src/oauth/client.rs:141 | decimal digits without a leading zero |
| Common.ParseNatDigits | src/oauth/client.rs:141 | reading the digits of a natural number gives it back |
| Base64Url.SextetValue | session/src/lib.rs:134 | the 6-bit value of an alphabet character, None exactly for characters outside the URL-safe alphabet |
| Base64Url.SextetRoundTrip | session/src/lib.rs:134 | reading back the character of a 6-bit value gives that value |
| Base64Url.EncodeTriple | session/src/lib.rs:193 | three bytes encode to four alphabet characters |
| Base64Url.Encode | session/src/lib.rs:193 | the unpadded encoding has the unpadded length and uses only the URL-safe alphabet |
| Base64Url.DecodeQuad | session/src/lib.rs:134 | four sextets join into three bytes |
| Base64Url.Decode | session/src/lib.rs:134-137 | an accepted string decodes to exactly three bytes per four characters (plus the tail) |
| Base64Url.TripleArithmetic | session/src/lib.rs:193 | splitting three bytes into sextets and joining them back is the identity |
| Base64Url.QuadArithmetic | session/src/lib.rs:134 | joining four sextets and splitting them again is the identity |
| Base64Url.DecodeTriple | session/src/lib.rs:134-137 | a full encoded group decodes to its three bytes in front of whatever the rest decodes to |
| Base64Url.DecodePair | session/src/lib.rs:134-137 | the encoding of two bytes decodes back to them |
| Base64Url.DecodeSingle | session/src/lib.rs:134-137 | the encoding of one byte decodes back to it |
| Base64Url.DecodeEncode | session/src/lib.rs:134-137 | decoding the encoding of any byte string gives the bytes back |
| Base64Url.QuadCanonical | session/src/lib.rs:134 | a decodable group of four characters is the encoding of its bytes |
| Base64Url.PairCanonical | session/src/lib.rs:134 | a decodable three-character tail is the encoding of its two bytes |
| Base64Url.SingleCanonical | session/src/lib.rs:134 | a decodable two-character tail is the encoding of its byte |
| Base64Url.EncodeDecodeGroup | session/src/lib.rs:134-137 | an accepted string encodes back when its tail after the first group does |
| Base64Url.EncodeDecodePair | session/src/lib.rs:134-137 | an accepted three-character string encodes back to itself |
| Base64Url.EncodeDecodeSingle | session/src/lib.rs:134-137 | an accepted two-character string encodes back to itself |
| Base64Url.EncodeDecode | session/src/lib.rs:134-137 | every accepted string is the encoding of what it decodes to |
| Base64Url.DecodeInjective | session/src/lib.rs:134-137 | two different accepted strings never decode to the same bytes |
| Utf8.EncodeChar | graphql/src/mutation/event.rs:38 | a scalar value takes one to four bytes, one exactly when it is ASCII |
| Utf8.Encode | graphql/src/mutation/event.rs:38 | the byte form of a string is at least as long as the string |
| Utf8.EncodeAscii | graphql/src/mutation/event.rs:38 | on ASCII text the byte length is the character length |
| Utf8.NonAsciiLonger | graphql/src/mutation/event.rs:38 | a string holding a non-ASCII character is longer in bytes than in characters |
| Utf8.EncodeConcat | graphql/src/mutation/event.rs:38 | encoding distributes over concatenation |
| Utf8.NextChunk | src/session/store.rs:83 | the lossy decoder consumes one to four bytes per step and yields one character |
| Utf8.TwoByteForm | src/session/store.rs:83 | a two-byte encoding is read back as its character |
| Utf8.ThreeByteForm | src/session/store.rs:83 | a three-byte encoding is read back as its character |
| Utf8.FourByteForm | src/session/store.rs:83 | a four-byte encoding is read back as its character |
| Utf8.NextChunkOfEncoded | src/session/store.rs:83 | the lossy decoder reads the encoding of a character back as that character |
| Utf8.DecodeLossyEncode | src/session/store.rs:83 | lossy decoding of valid UTF-8 is the exact inverse of encoding |
| SessionToken.GenerateId | session/src/lib.rs:63-66 | a session id is 43 URL-safe base64 characters |
| SessionToken.Check | session/src/lib.rs:127-149 | a token is accepted only when it is 128 characters, decodes, and its last 32 bytes are the HMAC of its first 64 |
| SessionToken.AsciiTokenLength | session/src/lib.rs:128 | a decodable token is ASCII, so its byte length (what `len` measures) is its character length |
| SessionToken.EncodedCookie | session/src/lib.rs:35-37 | any 96-byte cookie payload encodes to 128 characters (128 bytes) and decodes back to itself |
| SessionToken.SignedTokenLength | session/src/lib.rs:169-193 | every issued cookie value is 128 characters and 128 bytes |
| SessionToken.CheckSigned | session/src/lib.rs:127-149 | a token issued for a secret passes every check and yields that secret back |
| SessionToken.CheckedIsSigned | session/src/lib.rs:127-149 | an accepted token is exactly the token issued for the secret it yields |
| SessionToken.ForgedTagRejected | session/src/lib.rs:139-147 | a token whose tag is not the HMAC of its secret is refused |
| SessionTiming.Extended | session/src/lib.rs:75-81 | the expiry never moves back; after extending at least eight hours are left; it is either kept or set to three days from now |
| SessionTiming.Ttl | session/src/store.rs:44-51 | the Redis expiration is zero exactly when the session has expired, otherwise the seconds left |
| SessionTiming.ExtendBoundary | session/src/lib.rs:77 | exactly eight hours left keeps the expiry; one second less extends it |
| SessionTiming.ExtendIdempotent | session/src/lib.rs:75-81 | extending twice at the same instant is extending once |
| SessionTiming.ExtendedStaysAlive | session/src/lib.rs:75-81 | an extended session is alive, with a positive time-to-live, throughout the next eight hours |
| SessionTiming.TtlJustExpired | session/src/store.rs:44-51 | a session that expired a second ago is given a zero expiration |
| SessionStorage.Key | session/src/store.rs:27 | the Redis key is the id behind the `identity:session:` prefix |
| SessionStorage.KeyInjective | session/src/store.rs:27 | distinct sessions never share a key |
| SessionStorage.Get | session/src/store.rs:26-28 | GET returns a value exactly for a present key whose deadline has not passed |
| SessionStorage.SetEx | session/src/store.rs:54-59 | SETEX fails exactly for a zero expiration, and otherwise adds the key and keeps every other key |
| SessionStorage.FetchOutcomes | session/src/store.rs:24-37 | a load fails with a Redis error exactly when Redis is unreachable, is empty exactly for a missing or expired key, and fails with a JSON error exactly for an undecodable value |
| SessionStorage.PutFails | session/src/store.rs:41-62 | a save fails exactly when Redis is unreachable or the session has already expired |
| SessionStorage.FetchAfterPut | session/src/store.rs:24-62 | a saved session loads back unchanged before its expiry |
| SessionStorage.PutKeepsOthers | session/src/store.rs:41-62 | saving one session leaves every other session's load as it was |
| SessionStorage.PutForgottenAfterExpiry | session/src/store.rs:41-62 | once a saved session's expiry has passed, it no longer loads |
| Sessions.NameIdentifiesVariant | session/src/lib.rs:225-232 | two states have the same name exactly when they are the same variant |
| Sessions.UserId | session/src/lib.rs:235-240 | a user id is present exactly for an authenticated state, and it is that state's id |
| Sessions.OAuthOf | session/src/lib.rs:244-250 | builds the OAuth state carrying the given provider, nonce and return address |
| Sessions.RegistrationNeededOf | session/src/lib.rs:254-261 | builds the registration-needed state with the given id and email, an empty provider and no return address |
| Sessions.AuthenticatedOf | session/src/lib.rs:265-267 | the authenticated state built for a user reports that user's id |
| Sessions.Session.Default | session/src/lib.rs:84-96 | a new session: id derived from its 64-byte secret, expiring fourteen days from now, unauthenticated, holding the secret |
| Sessions.Session.FromRecord | session/src/store.rs:30-35 | a deserialised session has exactly the stored id, expiry and state, and no secret |
| Sessions.Session.ToRecord | session/src/store.rs:42 | what is serialised is the session's id, expiry and state |
| Sessions.Session.ExtendIfExpiring | session/src/lib.rs:75-81 | the expiry becomes the extended expiry; id, state and secret are unchanged |
| SessionStore.Store.constructor | session/src/store.rs:18-20 | a store over the given Redis contents |
| SessionStore.Store.Load | session/src/store.rs:24-37 | looks up the session's key; fails, finds nothing or yields a session exactly as the pure Redis model does |
| SessionStore.Store.Save | session/src/store.rs:41-62 | on success Redis holds the session under its key until its expiry; nothing changes on failure |
| SessionManager.Manager.constructor | session/src/lib.rs:114-123 | a manager over the given store and cookie settings |
| SessionManager.Manager.LoadFromToken | session/src/lib.rs:127-151 | a token failing the length, base64 or HMAC check yields no session without touching Redis; a valid one loads the session whose id derives from the token's secret; the result always agrees with `SessionManager.Loaded`, the same load on values |
| SessionManager.Manager.LoadFromCookie | session/src/lib.rs:155-160 | no `session` cookie is no session and no lookup; otherwise behaves as loading from the cookie's value |
| SessionManager.Manager.Save | session/src/lib.rs:164-166 | Redis changes exactly as the store's save does |
| SessionManager.Manager.BuildCookie | session/src/lib.rs:169-203 | a cookie exists exactly when the session holds its secret; it is HttpOnly, Lax, path `/`, on the configured domain, expiring with the session and carrying the signed token |
| SessionMiddleware.SessionLayer.constructor | session/src/middleware.rs:24-26 | a layer over the given manager |
| SessionMiddleware.SessionLayer.LoadOrCreate | session/src/middleware.rs:30-44 | the request gets the resumed session, or, when none resumes (no cookie, bad token, Redis failure), a fresh default one |
| SessionMiddleware.SessionLayer.Call | session/src/middleware.rs:80-126 | after the handler the session is extended and saved; a failed save answers 500 with no cookie; otherwise the handler's response is returned, with a Set-Cookie exactly when the session was created in this request |
| SessionMiddleware.ExtendedSaveSucceeds | session/src/middleware.rs:105-107 | with Redis reachable, saving a session just extended never fails, since it has at least eight hours to live |
| SessionMiddleware.IssuedCookieResumes | session/src/middleware.rs:118-121 | a cookie issued for a saved session resumes that same session on any later request before its expiry |
| AppSessions.NameIdentifiesVariant | src/session.rs:170-177 | two states have the same name exactly when they are the same variant |
| AppSessions.UserId | src/session.rs:180-185 | a user id is present exactly for an authenticated state, and it is that state's id |
| AppSessions.OAuthOf | src/session.rs:188-190 | builds the OAuth state carrying the given provider and nonce |
| AppSessions.RegistrationNeededOf | src/session.rs:193-195 | builds the registration-needed state with the given id and email |
| AppSessions.AuthenticatedOf | src/session.rs:198-200 | the authenticated state built for a user reports that user's id |
| AppSessions.Session.Default | src/session.rs:137-149 | a new session: id derived from its 64-byte secret, expiring fourteen days from now, unauthenticated, holding the secret |
| AppSessions.Session.FromRecord | src/session/store.rs:28-33 | a deserialised session has exactly the stored id, expiry and state, and no secret |
| AppSessions.Session.ToRecord | src/session/store.rs:40 | what is serialised is the session's id, expiry and state |
| AppSessions.Session.IsExpired | src/session.rs:65-67 | expired exactly when the expiry is strictly before now (a session expiring this instant is not expired); an expired session has no time left in Redis, and an unexpired one expiring later has some |
| AppSessions.Session.ExtendIfExpiring | src/session.rs:70-76 | the expiry becomes the extended expiry; id, state and secret are unchanged |
| AppSessions.Session.IntoCookie | src/session.rs:79-110 | a cookie exists exactly when the session holds its secret; it is HttpOnly, Lax, path `/`, on the configured domain, expiring with the session and carrying the signed token |
| AppSessions.Session.FromCookie | src/session.rs:113-134 | an id is read exactly when the `session` cookie exists and passes the length, base64 and HMAC checks, and it is the id derived from the token's secret |
| AppSessions.CookieRoundTrip | src/session.rs:79-134 | reading the cookie issued for a session yields that session's id |
| AppSessionStore.Display | src/session/store.rs:77-88 | a Redis error reads as the fixed message; a JSON error starts with the deserialisation prefix |
| AppSessionStore.DisplayShowsContent | src/session/store.rs:81-85 | stored content that is valid UTF-8 is shown verbatim after the prefix |
| AppSessionStore.DisplayDistinguishes | src/session/store.rs:77-88 | the two kinds of error never read alike |
| AppSessionStore.Store.constructor | src/session/store.rs:16-18 | a store over the given Redis contents |
| AppSessionStore.Store.Load | src/session/store.rs:22-35 | looks up the session's key; fails, finds nothing or yields a session exactly as the pure Redis model does |
| AppSessionStore.Store.Save | src/session/store.rs:39-60 | on success Redis holds the session under its key until its expiry; nothing changes on failure |
| AppSessionMiddleware.SessionLayer.constructor | src/session/middleware.rs:33-47 | a layer over the given store and cookie settings |
| AppSessionMiddleware.SessionLayer.LoadOrCreate | src/session/middleware.rs:51-69 | no id costs no lookup and gives a fresh session; an id is looked up once and a missing, expired or failing load gives a fresh session |
| AppSessionMiddleware.SessionLayer.Call | src/session/middleware.rs:105-152 | after the handler the session is extended and saved; a failed save answers 500 with no cookie; otherwise the handler's response is returned, with a Set-Cookie exactly when the session was created in this request |
| AppSessionMiddleware.IssuedCookieResumes | src/session/middleware.rs:113-114 | a cookie issued for a saved session resumes the saved record on any later request before its expiry |
| SessionGuards.RejectionFor | src/session/extract/mod.rs:31-41 | anonymous states are 401 "unauthorized"; registration-needed is 403 "registration required"; authenticated is 403 "forbidden" |
| SessionGuards.RejectionClasses | src/session/extract/mod.rs:31-41 | two states get the same rejection exactly when both are anonymous or they are the same signed-in state |
| SessionGuards.RejectionResponse | src/session/extract/mod.rs:44-48 | the response has the rejection's status and a JSON body holding only its message |
| SessionGuards.UnauthenticatedSession.constructor | src/session/extract/unauthenticated.rs:42-52 | wraps a session with its access mode |
| SessionGuards.UnauthenticatedSession.IntoOAuth | src/session/extract/unauthenticated.rs:14-16 | with write access, the state becomes the OAuth state for the provider and nonce; nothing else changes |
| SessionGuards.ExtractUnauthenticated | src/session/extract/unauthenticated.rs:29-39 | succeeds exactly for an unauthenticated session, otherwise rejects with that state's rejection |
| SessionGuards.OAuthSession.constructor | src/session/extract/oauth.rs:50 | wraps a write-locked session |
| SessionGuards.OAuthSession.Data | src/session/extract/oauth.rs:30-36 | yields the provider and nonce of the flow in progress |
| SessionGuards.OAuthSession.Drop | src/session/extract/oauth.rs:59-66 | a session still in the OAuth flow is demoted to unauthenticated; any other state is kept |
| SessionGuards.OAuthSession.IntoAuthenticated | src/session/extract/oauth.rs:17-19 | the session ends authenticated for the user, and the drop keeps it so |
| SessionGuards.OAuthSession.IntoRegistrationNeeded | src/session/extract/oauth.rs:22-24 | the session ends needing registration with the given id and email |
| SessionGuards.ExtractOAuth | src/session/extract/oauth.rs:46-56 | succeeds exactly for a session in the OAuth flow, otherwise rejects with that state's rejection |
| SessionGuards.RegistrationNeededSession.constructor | src/session/extract/registration_needed.rs:65-75 | wraps a session with its access mode |
| SessionGuards.RegistrationNeededSession.Data | src/session/extract/registration_needed.rs:32-38 | yields the provider's id and email of the user registering |
| SessionGuards.RegistrationNeededSession.IntoAuthenticated | src/session/extract/registration_needed.rs:21-23 | with write access, the session becomes authenticated for the new user; nothing else changes |
| SessionGuards.ExtractRegistrationNeeded | src/session/extract/registration_needed.rs:52-62 | succeeds exactly for a registration-needed session, otherwise rejects with that state's rejection |
| SessionGuards.CurrentUserRejectionResponse | src/session/extract/user.rs:96-115 | a state rejection answers as itself; a database failure and an unknown user both answer 500 "internal error" |
| SessionGuards.CurrentUser.constructor | src/session/extract/user.rs:82 | pairs the session with its user |
| SessionGuards.CurrentUser.Logout | src/session/extract/user.rs:34-36 | with write access, the session becomes unauthenticated; nothing else changes |
| SessionGuards.ExtractCurrentUser | src/session/extract/user.rs:69-83 | a non-authenticated session is rejected by its state; a failed lookup is a database failure; a missing user is an unknown user; otherwise the found user is returned |
| Users.User.constructor | database/src/user.rs:14-29 | a user object holding exactly the columns of the row it was read from |
| Users.AppliedAsWritten | database/src/user.rs:173-214 | as written, a successful save replaces the names and email that are pending and keeps the admin flag whatever is pending |
| Users.AdminFlagDropped | database/src/user.rs:174-176 | as written, an update that only sets the admin flag to the opposite of the row's leaves the row unchanged |
| Users.Applied | database/src/user.rs:173-214 | corrected: a successful save replaces every pending column, including the admin flag, and keeps the id and timestamps; nothing pending changes nothing |
| Users.AppliedIdempotent | database/src/user.rs:173-214 | writing the same changes twice is writing them once |
| Users.CorrectionOnlyAddsAdminFlag | database/src/user.rs:173-214 | for updates that leave the admin flag alone, the corrected save behaves exactly as the source's |
| Database.Placeholder | database/src/user.rs:184 | the bind placeholder is `$` and the decimal number, ending in a digit and holding no letter |
| Users.SetColumns | database/src/user.rs:174-195 | the columns the UPDATE sets; none exactly when the save has nothing to write (as written, or corrected with the admin flag) |
| Users.Assignments | database/src/user.rs:180-195 | a non-empty `column = $n` list ends in a parameter's last digit |
| Users.WhereRunsIntoParameter | database/src/user.rs:179-199 | as written, every UPDATE the save issues has a parameter directly followed by `WHERE` |
| Users.GivenNameStatementAsWritten | database/src/user.rs:179-199 | as written, updating the given name alone issues `UPDATE users SET given_name = $1WHERE id = $2` |
| Users.AssignmentsDelimited | database/src/user.rs:180-195 | no parameter in the assignment list runs into a word |
| Users.UpdateStatementDelimited | database/src/user.rs:179-199 | corrected, no parameter of any UPDATE runs into a word |
| Users.UserUpdater.constructor | database/src/user.rs:74-76 | a new updater over the user has nothing pending |
| Users.UserUpdater.GivenName | database/src/user.rs:123-126 | the given name becomes pending; other pending fields are kept |
| Users.UserUpdater.OverrideGivenName | database/src/user.rs:129-132 | the pending given name is replaced by the option given |
| Users.UserUpdater.FamilyName | database/src/user.rs:135-138 | the family name becomes pending; other pending fields are kept |
| Users.UserUpdater.OverrideFamilyName | database/src/user.rs:141-144 | the pending family name is replaced by the option given |
| Users.UserUpdater.PrimaryEmail | database/src/user.rs:147-150 | the primary email becomes pending; other pending fields are kept |
| Users.UserUpdater.OverridePrimaryEmail | database/src/user.rs:153-156 | the pending primary email is replaced by the option given |
| Users.UserUpdater.IsAdmin | database/src/user.rs:160-163 | the admin flag becomes pending; other pending fields are kept |
| Users.UserUpdater.OverrideIsAdmin | database/src/user.rs:166-169 | the pending admin flag is replaced by the option given |
| Users.UserUpdater.Save | database/src/user.rs:173-214 | corrected (see Findings): nothing pending is Ok with no change; a failed UPDATE returns its error and leaves the user unchanged; success applies the pending changes |
| Events.Event.constructor | database/src/event.rs:28-46 | an event object holding exactly the columns of its row |
| Events.Event.IsActive | database/src/event.rs:199-201 | an event is active exactly until its expiry instant, inclusive |
| Events.Applied | database/src/event.rs:332-377 | a successful save replaces every pending column and keeps the slug and timestamps; nothing pending changes nothing |
| Events.AppliedIdempotent | database/src/event.rs:332-377 | writing the same changes twice is writing them once |
| Events.EventUpdater.constructor | database/src/event.rs:204-206 | a new updater over the event has nothing pending |
| Events.EventUpdater.Name | database/src/event.rs:295-298 | the name becomes pending; other pending fields are kept |
| Events.EventUpdater.OverrideName | database/src/event.rs:301-304 | the pending name is replaced by the option given |
| Events.EventUpdater.Organization | database/src/event.rs:307-310 | the organization becomes pending; other pending fields are kept |
| Events.EventUpdater.OverrideOrganization | database/src/event.rs:313-316 | the pending organization is replaced by the option given |
| Events.EventUpdater.ExpiresOn | database/src/event.rs:319-322 | the expiry becomes pending; other pending fields are kept |
| Events.EventUpdater.OverrideExpiresOn | database/src/event.rs:325-328 | the pending expiry is replaced by the option given |
| Events.EventUpdater.Save | database/src/event.rs:332-377 | nothing pending is Ok with no change; a failed UPDATE returns its error and leaves the event unchanged; success applies the pending changes |
| Events.OwnersExact | database/src/event.rs:80-102 | an organization is among the owners exactly when it owns an event of the list |
| Events.BucketSound | database/src/event.rs:80-102 | a bucket holds only events of its organization, drawn from the input |
| Events.BucketComplete | database/src/event.rs:80-102 | every event lands in its organization's bucket |
| Events.BucketSizes | database/src/event.rs:80-102 | two distinct buckets together hold no more events than the input |
| Events.BucketOfNonOwner | database/src/event.rs:80-102 | an organization owning none of the events has an empty bucket |
| Events.GroupStep | database/src/event.rs:95-99 | folding in one more event adds its organization and extends only its own bucket |
| Events.GroupInsert | database/src/event.rs:95-99 | pushing one more event onto its bucket (created when missing) turns the grouping of a prefix into the grouping of the longer prefix |
| Events.GroupByOrganization | database/src/event.rs:80-102 | the fold's map has exactly the owners as keys and maps each to its events in query order |
| Organizations.Organization.constructor | database/src/organization.rs:21-37 | an organization object holding exactly the columns of its row |
| Organizations.Applied | database/src/organization.rs:220-274 | a successful save replaces every pending column (a pending `None` clears the logo or website) and keeps the id and timestamps; nothing pending changes nothing |
| Organizations.AppliedIdempotent | database/src/organization.rs:220-274 | writing the same changes twice is writing them once |
| Organizations.OrganizationUpdater.constructor | database/src/organization.rs:108-110 | a new updater over the organization has nothing pending |
| Organizations.OrganizationUpdater.Name | database/src/organization.rs:171-174 | the name becomes pending; other pending fields are kept |
| Organizations.OrganizationUpdater.OverrideName | database/src/organization.rs:177-180 | the pending name is replaced by the option given |
| Organizations.OrganizationUpdater.Logo | database/src/organization.rs:183-186 | the logo (possibly none) becomes pending; other pending fields are kept |
| Organizations.OrganizationUpdater.OverrideLogo | database/src/organization.rs:189-192 | the pending logo is replaced by the option given |
| Organizations.OrganizationUpdater.Website | database/src/organization.rs:195-198 | the website (possibly none) becomes pending; other pending fields are kept |
| Organizations.OrganizationUpdater.OverrideWebsite | database/src/organization.rs:201-204 | the pending website is replaced by the option given |
| Organizations.OrganizationUpdater.Owner | database/src/organization.rs:207-210 | the owner becomes pending; other pending fields are kept |
| Organizations.OrganizationUpdater.OverrideOwner | database/src/organization.rs:213-216 | the pending owner is replaced by the option given |
| Organizations.OrganizationUpdater.Save | database/src/organization.rs:220-274 | nothing pending is Ok with no change; a failed UPDATE returns its error and leaves the organization unchanged; success applies the pending changes |
| CustomDomains.CustomDomain.constructor | database/src/custom_domain.rs:18-29 | a custom domain object holding exactly the columns of its row |
| CustomDomains.Applied | database/src/custom_domain.rs:223-250 | a successful save renames the domain when a name is pending and keeps the event and timestamps |
| CustomDomains.CustomDomainUpdater.constructor | database/src/custom_domain.rs:159-161 | a new updater over the domain has no pending name |
| CustomDomains.CustomDomainUpdater.Name | database/src/custom_domain.rs:210-213 | the name becomes pending |
| CustomDomains.CustomDomainUpdater.OverrideName | database/src/custom_domain.rs:216-219 | the pending name is replaced by the option given |
| CustomDomains.CustomDomainUpdater.Save | database/src/custom_domain.rs:223-250 | no pending name is Ok with no change; a failed UPDATE returns its error and leaves the domain unchanged; success renames it |
| FormUrlEncoded.HexDigit | src/oauth/client.rs:49-52 | a value below 16 becomes an upper-case hexadecimal digit that reads back as that value |
| FormUrlEncoded.HexValue | src/oauth/client.rs:49-52 | a hexadecimal digit reads as a value below 16 |
| FormUrlEncoded.SerializeByte | src/oauth/client.rs:49-52 | one byte becomes one to three characters, never `&` or `=` |
| FormUrlEncoded.ByteSerialize | src/oauth/client.rs:49-52 | a serialized name or value never contains `&` or `=` |
| FormUrlEncoded.PairText | src/oauth/client.rs:50 | a `name=value` pair is never empty |
| FormUrlEncoded.Query | src/oauth/client.rs:72 | the query is empty exactly when no pair was appended |
| FormUrlEncoded.Serializer.constructor | src/oauth/client.rs:49 | a new serializer has an empty target and no pairs |
| FormUrlEncoded.Serializer.AppendPair | src/oauth/client.rs:50-52 | the pair is recorded and its text is appended to the target, after a `&` unless the target was empty |
| FormUrlEncoded.Serializer.Finish | src/oauth/client.rs:72 | the result is the target, which is the serialization of every pair appended |
| FormUrlEncoded.QueryAppend | src/oauth/client.rs:50-72 | serializing one more pair appends its text after a `&` |
| FormUrlEncoded.UnescapeByte | src/oauth/client.rs:49-52 | percent-decoding reads the serialization of a byte back as that byte |
| FormUrlEncoded.UnescapeSerialize | src/oauth/client.rs:49-52 | percent-decoding undoes the byte serializer |
| FormUrlEncoded.SplitOn | src/oauth/client.rs:72-73 | splitting always yields at least one piece |
| FormUrlEncoded.SplitOnNone | src/oauth/client.rs:72-73 | a text free of the separator is a single piece |
| FormUrlEncoded.SplitOnAppend | src/oauth/client.rs:72-73 | a separator followed by a piece free of it adds exactly that piece |
| FormUrlEncoded.SplitFirst | src/oauth/client.rs:72-73 | splitting at the first occurrence recovers the text before and after it |
| FormUrlEncoded.EncodedPairs | src/oauth/client.rs:50-52 | the pairs as UTF-8 bytes, pair by pair |
| FormUrlEncoded.PairPiece | src/oauth/client.rs:50-52 | a pair's text decodes to its name and value |
| FormUrlEncoded.NoAmpersand | src/oauth/client.rs:50-52 | a pair's text contains no `&` |
| FormUrlEncoded.QuerySplit | src/oauth/client.rs:72 | splitting a non-empty query at `&` gives back the pair texts |
| FormUrlEncoded.ParseTexts | src/oauth/client.rs:72 | parsing the pair texts gives back every name and value |
| FormUrlEncoded.ParseQuery | src/oauth/client.rs:49-73 | parsing a serialized query gives back every pair, in order, as UTF-8 |
| OAuthClient.AuthorizeEndpoint | src/oauth/client.rs:54-70 | each kind's authorization endpoint contains no `?` |
| OAuthClient.BuildAuthorizationUrl | src/oauth/client.rs:42-74 | returns the state it used, and a URL that is the kind's endpoint followed by `?` and a query |
| OAuthClient.QueryOfAuthorizationUrl | src/oauth/client.rs:49-73 | the text after the URL's first `?` is exactly the serialized parameter list |
| OAuthClient.EncodedAuthorizationParams | src/oauth/client.rs:49-73 | the parameters are response_type=code, the redirect URL, the state, the client id and the kind's scope, in that order |
| OAuthClient.AuthorizationUrlParams | src/oauth/client.rs:42-74 | the query holds response_type=code, the redirect URL, the state, the client id and the kind's scope, in that order, and parses back exactly |
| OAuthClient.ExchangeConfigFor | src/oauth/client.rs:304-333 | each kind posts to its own token endpoint with its own client credentials |
| OAuthClient.ExchangeRequestFor | src/oauth/client.rs:84-91 | the form carries the code, the `authorization_code` grant, the redirect URI and the client credentials |
| OAuthClient.Classify | src/oauth/client.rs:258-268 | connect and timeout failures are connection errors; else body and decode failures are read errors; anything else is unknown |
| OAuthClient.DeserializeIfSuccessful | src/oauth/client.rs:350-362 | a body that cannot be read is a classified error; an unsuccessful status is reported with the body; a successful one decodes the body or reports it as unparsable |
| OAuthClient.CheckTokenType | src/oauth/client.rs:96-100 | the access token is accepted exactly when the token type lower-cases to `bearer`, otherwise the type is reported |
| OAuthClient.BearerInAnyCase | src/oauth/client.rs:96 | both `Bearer` and `bearer` are accepted |
| OAuthClient.Exchange | src/oauth/client.rs:78-101 | a failed request is classified; otherwise the reply is decoded and its token type checked |
| OAuthClient.FromOpenIdConnect | src/oauth/client.rs:195-202 | the subject is the id and the email is kept |
| OAuthClient.FromDiscord | src/oauth/client.rs:204-211 | the id and the email are kept |
| OAuthClient.PrimaryEmail | src/oauth/client.rs:134-138 | an email is found exactly when some entry is primary, and it is the first such entry's |
| OAuthClient.DecimalString | src/oauth/client.rs:141 | the text starts with `-` exactly for a negative id |
| OAuthClient.DecimalRoundTrip | src/oauth/client.rs:141 | the id text reads back as the id, so distinct GitHub ids give distinct user ids |
| OAuthClient.GitHubUserInfo | src/oauth/client.rs:125-144 | a user is produced exactly when some email is primary: its id is the decimal text of GitHub's id and its email the primary one |
| OAuthClient.Request | src/oauth/client.rs:150-177 | a failed request is classified, otherwise the reply is decoded as `deserialize_if_successful` does |
| OAuthClient.UserInfoFor | src/oauth/client.rs:105-146 | Google and Discord answer with their converted user info or the request's error; for GitHub a failed user request is reported first, then a failed email request; when both succeed and an email is primary the answer is the decimal id with that email, and only GitHub with no primary email panics |
| OAuthFlow.DebugQuoted | src/handlers/oauth/error.rs:71 | a parameter name is shown between double quotes |
| OAuthFlow.DebugEscaped | src/handlers/oauth/error.rs:71 | escaping never shortens a text and leaves a text with nothing to escape as it is |
| OAuthFlow.EscapeChar | src/handlers/oauth/error.rs:71 | a character is kept exactly when it needs no escape, and is otherwise a backslash sequence of two characters |
| OAuthFlow.ErrorResponse | src/handlers/oauth/error.rs:46-76 | a provider-reported error redirects (303) to its URL; database and provider failures are 500 "internal error"; unknown provider 404; invalid state 400; an invalid parameter 400 naming it |
| OAuthFlow.ErrorStatuses | src/handlers/oauth/error.rs:46-76 | only the provider-reported error leaves as a redirect; every other error is a 4xx or 5xx status |
| OAuthFlow.ParameterShownVerbatim | src/handlers/oauth/error.rs:70-73 | a parameter name with nothing to escape appears verbatim between quotes in the message |
| OAuthFlow.IntoCode | src/oauth.rs:113-144 | a success yields its code; a failure is a provider-response error redirecting to the frontend's login page |
| OAuthFlow.QueryOfLoginRedirect | src/oauth.rs:121-139 | the text after the login redirect's `?` is exactly the serialized failure parameters |
| OAuthFlow.ParsedLoginRedirect | src/oauth.rs:121-139 | the login redirect's query parses back to exactly the failure parameters |
| OAuthFlow.LoginRedirectCancelled | src/oauth.rs:121-126 | for `access_denied` the query is `status=cancelled` alone |
| OAuthFlow.LoginRedirectFailed | src/oauth.rs:127-139 | for any other error the query is `status=error` followed by `reason=unknown` |
| OAuthFlow.LoginRedirectStatus | src/oauth.rs:121-139 | the first parameter is always `status`, and it reads `cancelled` exactly when the error is `access_denied` |
| OAuthFlow.CancelledDiffersFromFailed | src/oauth.rs:124-138 | a cancelled login and a failed one redirect to different pages |
| OAuthFlow.Launch | src/oauth.rs:18-34 | a failed lookup is a database error; a missing or disabled provider is unknown; otherwise the redirect goes to the provider's authorization URL built for this API's callback |
| OAuthFlow.LaunchRedirectsBack | src/oauth.rs:24-30 | the authorization URL carries this API's callback URL, the state and the provider's client id |
| OAuthFlow.Callback | src/oauth.rs:45-84 | an empty state is refused first; a provider error redirects to the login page; then the GitHub provider is looked up; success needs the exchange and the client's `user_info` (`OAuthClient.UserInfoFor`) with the issued token to succeed, and redirects with the id and email; provider failures carry the cause; the `user_info` panic is the only `None` |
| OAuthFlow.CallbackNeedsBearer | src/oauth.rs:62-69 | the callback never completes unless the token endpoint answered with a bearer token |
| OAuthFlow.Respond | src/oauth.rs:23 | an outcome becomes a 303 redirect or the error's response |
| OAuthHandler.ErrorResponse | src/handlers/oauth.rs:76-91 | a database failure is 500 "internal error"; a missing or disabled provider is 404 "unknown provider" |
| OAuthHandler.Launch | src/handlers/oauth.rs:14-29 | a failed lookup is a database error; no enabled provider is not-found; otherwise the redirect goes to the provider's authorization URL for this API's callback |
| OAuthHandler.LaunchesAgree | src/handlers/oauth.rs:14-60 | this launch and the flow's launch send the same response for the same lookup and state |
| HandlerErrors.Display | src/handlers/error.rs:20-28 | each error has its own message, and the message identifies the error kind |
| HandlerErrors.Source | src/handlers/error.rs:30-38 | a missing event has no cause; database and session errors expose their cause |
| HandlerErrors.ErrorResponse | src/handlers/error.rs:40-60 | a missing event is 422 "unknown event"; every other error is 500 "internal server error" |
| HandlerErrors.ResponseHidesCause | src/handlers/error.rs:40-60 | the response depends only on whether the event was missing, never on a failure's cause |
| HandlerErrors.FromInvalidUri | src/handlers/error.rs:74-79 | an invalid domain is reported as a missing event (422) |
| Domains.New | state/src/domains.rs:34-45 | the suffix is kept and a host requires admin or user scope exactly when it is in the corresponding list |
| Domains.ForEvent | state/src/domains.rs:48-50 | the hosted domain is the slug followed by the event suffix |
| Domains.ExtractSlugForSubdomain | state/src/domains.rs:53-55 | a slug is extracted exactly when the host ends with the suffix, and the host is that slug plus the suffix |
| Domains.ExtractForEvent | state/src/domains.rs:48-55 | the slug extracted from an event's hosted domain is the event's slug |
| Domains.ExtractIsInverse | state/src/domains.rs:48-55 | a host yields a slug exactly when it is that slug's hosted domain |
| RequestContext.ToUserRole | database/src/organizer.rs:31-39 | an organizer role never becomes the participant role |
| RequestContext.ScopeOfEvent | src/handlers/context.rs:48-57 | a failed lookup is a database error; a missing event is event-not-found; a found event gives its slug and organization as the scope |
| RequestContext.DetermineScope | src/handlers/context.rs:40-94 | a slug is looked up directly; a domain that is not an authority is not found; an admin host is the admin scope, then a user host the user scope; otherwise a hosted subdomain is looked up by slug and any other host as a custom domain |
| RequestContext.ScopeOutcomes | src/handlers/context.rs:40-94 | the admin and user scopes come only from their configured hosts; an event scope always names an event a lookup returned |
| RequestContext.HostedDomainResolves | src/handlers/context.rs:72-74 | an event's hosted domain resolves to that event unless the host is reserved for the admin or user scope |
| RequestContext.DetermineRole | src/handlers/context.rs:141-158 | no role outside an event; within one, a participant is a participant, else an organizer role maps to its user role, else none; lookup failures propagate in that order |
| RequestContext.ParticipantPrecedence | src/handlers/context.rs:146-150 | the role is participant exactly when the user participates in the scope's event, whatever their organizer role |
| RequestContext.TokenState | src/handlers/context.rs:104-108 | the state of the session the manager's `load_from_token` finds (`SessionManager.Loaded`): a token failing the checks gives no session; otherwise the state stored under the id derived from it, or the store's error |
| RequestContext.DetermineUser | src/handlers/context.rs:98-137 | a store failure is a session error; no session or an unauthenticated one is unauthenticated; OAuth and registration states map over; an authenticated session reports its user's details and role, panicking when the user is missing |
| RequestContext.UnknownTokenIsUnauthenticated | src/handlers/context.rs:104-111 | a token naming no stored session makes the user unauthenticated |
| RequestContext.Context | src/handlers/context.rs:26-36 | the scope is determined first and its error stops the request; otherwise the user context is determined for that scope |
| EventMutation.CreateChecks | graphql/src/mutation/event.rs:33-46 | each of the four create checks (empty slug, slug over 63 bytes, slug not a DNS segment, empty name) reports its error exactly when it fails, independently of the others, and nothing else is reported |
| EventMutation.CreateEvent | graphql/src/mutation/event.rs:28-68 | input errors stop the mutation before any query; otherwise the organization's existence is checked first (a missing one is a user error, a failed lookup an error), then the event is inserted and a unique violation becomes "already in use" |
| EventMutation.AsciiSlugFits | graphql/src/mutation/event.rs:38-40 | a slug of at most 63 ASCII characters never triggers the length error, since the length is counted in bytes |
| EventMutation.UpdateEvent | graphql/src/mutation/event.rs:72-97 | a given empty name is refused before loading, leaving any event row unchanged; a missing event is a user error; otherwise the event's row becomes the name override applied to the old row, or stays unchanged when the save fails |
| ProviderMutation.CreateChecks | graphql/src/mutation/providers.rs:30-46 | each of the five create checks reports its error exactly when it fails, the errors accumulate, and nothing else is reported |
| ProviderMutation.EmptySlugReportedOnce | graphql/src/mutation/providers.rs:32-37 | an empty slug is reported as empty but not as an invalid identifier |
| ProviderMutation.CreateProvider | graphql/src/mutation/providers.rs:25-60 | input errors stop before any query; otherwise one insert runs, and a unique violation becomes "already in use" while other failures are errors |
| ProviderMutation.UpdateChecks | graphql/src/mutation/providers.rs:69-84 | the name and icon are checked only when given; an empty one is reported, a given icon that is not a URL is reported, and nothing given means no errors |
| ProviderMutation.Overridden | graphql/src/mutation/providers.rs:96-101 | each of `enabled`, `name`, `icon` and `config` takes the given override or keeps its old value; the slug never changes |
| ProviderMutation.UpdateProvider | graphql/src/mutation/providers.rs:64-107 | input errors stop before any query; a missing provider is a user error; otherwise the update is issued with exactly the input's overrides and the overridden provider is returned unless the save fails |
| OrganizationMutation.CreateOrganization | graphql/src/mutation/organization.rs:32-52 | an empty name is refused before any query; a missing owner is a user error; otherwise the organization is inserted and any insert failure is an error |
| OrganizationMutation.UpdateChecks | graphql/src/mutation/organization.rs:61-85 | the logo and website are checked only when given a value (not when left out or null), the name only when given; each error appears exactly when its check fails |
| OrganizationMutation.EmptyLogoReportedTwice | graphql/src/mutation/organization.rs:69-76 | an empty logo is reported both as empty and as not a URL |
| OrganizationMutation.CheckUpdate | graphql/src/mutation/organization.rs:61-85 | the pushes of the update checks produce exactly the errors of the check list, in the order checked |
| OrganizationMutation.UpdateOrganization | graphql/src/mutation/organization.rs:56-107 | input errors stop before loading, leaving any organization row unchanged; a missing organization is a user error; otherwise the row becomes the builder's overrides (left out = no change, null = cleared, value = set) applied to the old row, or stays unchanged when the save fails |
| OrganizationMutation.TransferOwnership | graphql/src/mutation/organization.rs:111-135 | the new owner is looked up before the organization; either missing is a user error; on success only the owner changes, and the organization is untouched whenever the owner check fails |
| UserMutation.UpdateChecks | graphql/src/mutation/user.rs:30-46 | the given and family names are checked only when given; both errors accumulate, and no errors exactly when neither is given empty |
| UserMutation.UpdateUser | graphql/src/mutation/user.rs:25-76 | input errors stop before loading, leaving any user row unchanged; a missing user is a user error; a new primary email must belong to one of the user's identities; otherwise the row becomes the four overrides applied to the old row (with the admin flag written, see Findings), or stays unchanged on failure |
| IdentityMutation.UnlinkIdentity | graphql/src/mutation/identity.rs:22-39 | the unlink runs exactly when the identity lookup succeeds and the user does not have exactly one identity; a single identity is refused with a user error |
| Logging.NewOpenTelemetry | common/src/logging.rs:18-20 | a configuration exists exactly when a URL is given, and it carries that URL and protocol |
| Logging.ParseProtocol | common/src/logging.rs:61-69 | "grpc" selects gRPC and "http" or "http/protobuf" binary HTTP, case-insensitively; JSON over HTTP is never selected; anything else is refused with the fixed message |
| Logging.LowerIdempotent | common/src/logging.rs:62 | lower-casing the argument twice equals lower-casing it once |
| Logging.ParseIgnoresCase | common/src/logging.rs:61-69 | parsing any spelling gives the same result as parsing its lower-case form |
| Validators.Identifier | graphql/src/mutation/validators.rs:4-6 | true exactly when every character is an ASCII letter, digit or underscore (the empty text included) |
| Validators.Url | graphql/src/mutation/validators.rs:9-17 | true exactly when the text parses with an http or https scheme and an authority; unparsable text is never a URL |
| Validators.IdentifierConcat | graphql/src/mutation/validators.rs:4-6 | a concatenation is an identifier exactly when both parts are |
| Mutation.Conversions | graphql/src/mutation/mod.rs:74-99 | a record converts with no errors; one error or a list of errors converts with no record, kept as given; one error is the one-element list |
| Migrator.VersionsAppend | migrator/src/lib.rs:114-118 | appending a row adds exactly its version to the recorded versions |
| Migrator.Without | migrator/src/lib.rs:244 | reverting removes exactly the reverted version from the recorded versions |
| Migrator.Connection.constructor | migrator/src/lib.rs:105 | a connection starts with the given table and dirty marker and has run nothing |
| Migrator.Connection.ApplyScript | migrator/src/lib.rs:155 | applying appends the migration's row to the table and its step to the log, leaving the dirty marker |
| Migrator.Connection.RevertScript | migrator/src/lib.rs:244 | reverting removes the migration's version from the table and appends its step to the log |
| Migrator.CreateFileName | migrator/src/lib.rs:36-41 | the file name is the timestamp, an underscore, the name and the kind's suffix, in that order |
| Migrator.UpAndDownNamesDiffer | migrator/src/lib.rs:24-34 | the up and down scripts created by `add` get different names even with the same timestamp |
| Migrator.DirtyCheck | migrator/src/lib.rs:259-270 | an error exactly when a dirty version exists and erroring is requested, and the error names that version |
| Migrator.UpFor | migrator/src/lib.rs:285-289 | the migration found for a version is an up or simple migration of the list with that version, and none is found exactly when no such migration exists |
| Migrator.FirstInvalidExact | migrator/src/lib.rs:291-311 | the table is accepted exactly when every row has an up migration with the same version and checksum; otherwise the error is the one for some row of the table |
| Migrator.ValidateApplied | migrator/src/lib.rs:280-312 | with `ignore_missing` everything is accepted; otherwise the loop returns exactly the first row's error in table order, or success |
| Migrator.AppendMigration | migrator/src/lib.rs:125-129 | running one more migration appends exactly its step and its row |
| Migrator.PendingExact | migrator/src/lib.rs:145-153 | a migration is run by `apply` exactly when it is in the list, is not a down migration and its version was not recorded |
| Migrator.ApplyMigration | migrator/src/lib.rs:140-159 | skipped exactly when the migration is a down migration or already recorded; otherwise its script runs and its row is recorded |
| Migrator.ApplyAll | migrator/src/lib.rs:104-136 | a dirty database or an invalid table is refused with nothing run; otherwise the pending migrations run in list order and their rows are appended |
| Migrator.RowsVersions | migrator/src/lib.rs:125-129 | the rows appended for a list of migrations record exactly their versions |
| Migrator.ApplyCompletes | migrator/src/lib.rs:104-136 | after a successful `apply`, every up or simple migration of the list has its version recorded |
| Migrator.RevertedExact | migrator/src/lib.rs:223-248 | a migration is reverted by the full backwards pass exactly when it is a recorded down migration newer than the target |
| Migrator.RevertedSplit | migrator/src/lib.rs:198 | the backwards pass over a list is the pass over its tail followed by the pass over its head |
| Migrator.UndoMigration | migrator/src/lib.rs:223-248 | skipped exactly when the migration is an up migration, is not recorded, or is not newer than the target; otherwise its down script runs and its version leaves the table |
| Migrator.Latest | migrator/src/lib.rs:181-185 | the latest version is 0 for an empty table, bounds every recorded version and is one of them otherwise |
| Migrator.RevertedFrom | migrator/src/lib.rs:198-199 | the backwards pass from a position meets everything after it before the migration there |
| Migrator.RevertStepsAppend | migrator/src/lib.rs:244 | reverting one more migration appends exactly its step to the log |
| Migrator.VersionsOfAppend | migrator/src/lib.rs:244 | reverting one more migration adds exactly its version to the removed versions |
| Migrator.RevertStep | migrator/src/lib.rs:198-209 | one step of the backwards pass adds the migration to the reverted list, the log and the removed versions exactly when it is revertible |
| Migrator.FirstRevert | migrator/src/lib.rs:205-208 | without a target only the first migration the backwards pass reverts is reverted |
| Migrator.RevertAt | migrator/src/lib.rs:199-208 | one turn of the pass extends the log by exactly the revert at that index (if any) and stops only without a target, having reverted exactly what `undo` reverts |
| Migrator.RevertPass | migrator/src/lib.rs:197-209 | the pass runs exactly the down scripts `undo` reverts (all newer than the target, or only the latest without one) and removes exactly their versions |
| Migrator.Undo | migrator/src/lib.rs:163-219 | an unknown non-zero target is refused before the database is read; a dirty database is refused with `Dirty(version)`, an invalid table with the validator's first error, and a target newer than the latest version with `VersionTooNew`, all with nothing run; otherwise exactly the revertible down migrations are reverted |

## Left out

- Cryptography and randomness are out. HMAC-SHA256, blake3 and the random secret and nonce are parameters, and constant-time comparison is not modelled.
- The clock is out: `now` is one integer-second parameter per request. Cookie `max_age` and the chrono/`time` conversions are not modelled.
- Redis I/O, connection managers, locks, `Arc::try_unwrap` and the tower service plumbing are not modelled. Concurrency is not modelled: one request runs at a time.
- serde/JSON encoding is abstracted as a stored form that has no field for the secret. Undecodable content is a separate case carrying the raw bytes.
- `Common.Lower`: lower-casing is ASCII only. Unicode case mapping is not modelled; every input the parsers accept is ASCII.
- Debug quoting escapes only `"`, `\`, newline, carriage return, tab and NUL.
- reqwest, the HTTP requests, timeouts and headers are out. A response is a status and a body. In `user_info`, the concurrent requests of `try_join!` report the user request's failure first.
- `OAuthClient.UserInfoFor`: the panic when GitHub lists no primary email is modelled as `None` (see also `OAuthClient.GitHubUserInfo`), and `OAuthFlow.Callback` passes that `None` on.
- URLs are modelled as origin text, and `Url::join` as concatenation.
- `ProviderConfiguration` is taken from its use in src/oauth/client.rs. database/src/provider.rs defines only the `Provider` record, not `Provider::create`, `find` or the update builder, so these are modelled as issued statements. A successful update is modelled by `ProviderMutation.Overridden`. The update is issued even when no override is given, because whether the builder skips an empty update is not known.
- graphql/src/mutation/event.rs:41 calls `validators::dns_segment`, which validators.rs does not define. The model takes it as a parameter.
- src/session/extract/registration_needed.rs:59 calls a two-argument `InvalidSessionState::from`, while mod.rs defines a one-argument one. The model uses the one-argument mapping.
- The nonce binding, the complete-registration handler and the logout handler are not modelled (the callback never compares `state` with a stored nonce, src/oauth.rs:49-52). Logout is modelled only as the `logout` state reset.
- The free `build_authorization_url` in src/handlers/oauth.rs repeats the client's. It is modelled once, as `OAuthClient.BuildAuthorizationUrl`.
- src/oauth/error.rs is not part of this model. The flow's errors follow src/handlers/oauth/error.rs.
- The allowed-redirect-domains glob matching (state/src/domains.rs) is not modelled.
- SQL text, dataloaders and row decoding are not modelled, except the text of the user UPDATE (see Findings). A database answer is a parameter, and a write through a builder is described by the record's new state.
- The `delete_*` mutations, and the organizer and participant mutations, are not modelled. The deletes only forward a delete. The organizer and participant mutations call `Organizer::create` and `Participant::create`, which database/src/organizer.rs and database/src/participant.rs do not define (they define `add`).
- The serializer chains of the authorization URL and the login redirect are modelled on values: a sequence of pairs that is then encoded with `FormUrlEncoded.Query`. The `FormUrlEncoded.Serializer` class proves that appending pairs one by one builds that same text, but no member runs the chains through it, so the model does not capture the serializer being mutated in place.
- Migrator `info` only logs, so it is not modelled apart from its non-failing dirty check (`Migrator.DirtyCheck` with `shouldError` false).
- Migrator: running a migration script is assumed to succeed, so `Execute` failures are not modelled. Table locking is not modelled. migrator/src/main.rs and migrator/src/error.rs only render messages.
- Writing the migration file in `create_file` is not modelled. Only its name is.
- `tracing` logging and the OpenTelemetry subscriber setup (`logging::init`, common/src/otel.rs) are not modelled.

## Findings

| source | as written | input that shows it | evidently intended | confidence | as-written member | corrected member |
|---|---|---|---|---|---|---|
| database/src/user.rs:173-214 (reached from graphql/src/mutation/user.rs:70) | `UserUpdater::save` ignores a pending `is_admin`: the no-op test looks only at the names and the email, and the UPDATE neither writes the flag nor copies it into the user | `updateUser(id, isAdmin: true)` on a non-admin user, with no other field given: the save is a no-op and the user is returned unchanged | a pending admin flag is written like the other fields | not executed | Users.AdminFlagDropped (over Users.AppliedAsWritten) | Users.Applied, Users.UserUpdater.Save |
| database/src/user.rs:197 | the WHERE clause is pushed as `"WHERE id = "`, with no leading space, right after the last `$n` of the SET list (event.rs:360 pushes `" WHERE slug = "`) | any update with a name or email pending, e.g. the given name alone: `UPDATE users SET given_name = $1WHERE id = $2`, which PostgreSQL's lexer rejects in its recent releases | a space before `WHERE`, as in the other builders | not executed | Users.WhereRunsIntoParameter, Users.GivenNameStatementAsWritten (over Users.UpdateStatementAsWritten) | Users.UpdateStatement, Users.UpdateStatementDelimited |
