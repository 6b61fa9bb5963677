/** The Redis side of the session store, shared by session/src/store.rs and
    src/session/store.rs. Redis is a map from keys to values with an absolute
    deadline; a key past its deadline reads as missing. The JSON form of a session
    is abstracted as `Stored`: either a well-formed record of the serialised fields
    (`id`, `expiry`, `state` — the cookie secret is skipped by serde and has no
    place here) or bytes that do not parse. The state type is a parameter because
    the two copies of the code have different session states. */
module SessionStorage {
  import opened Common
  import SessionTiming

  const KeyPrefix: string := "identity:session:"

  /** The Redis key of a session id. */
  function Key(id: string): (k: string)
    ensures |k| == |KeyPrefix| + |id| && k[..|KeyPrefix|] == KeyPrefix
  {
    KeyPrefix + id
  }

  /** Distinct sessions never share a key. */
  lemma KeyInjective(a: string, b: string)
    requires Key(a) == Key(b)
    ensures a == b
  {
    assert a == Key(a)[|KeyPrefix|..];
    assert b == Key(b)[|KeyPrefix|..];
  }

  /** The serialised fields of a session. */
  datatype Record<S> = Record(id: string, expiry: int, state: S)

  /** What a key holds. */
  datatype Stored<S> = Serialized(record: Record<S>) | Undecodable(raw: Bytes)

  /** A value and the instant at which Redis forgets it. */
  datatype Entry<S> = Entry(value: Stored<S>, deadline: int)

  type Entries<S> = map<string, Entry<S>>

  /** The store's error type (the `Error` enum of both copies). */
  datatype StoreError = Redis | Json(content: Bytes)

  /** Redis GET: the value under a key that has not reached its deadline. */
  function Get<S>(entries: Entries<S>, key: string, now: int): (r: Option<Stored<S>>)
    ensures r.Some? <==> key in entries && now < entries[key].deadline
  {
    if key in entries && now < entries[key].deadline then Some(entries[key].value) else None
  }

  /** Redis SETEX: the key holds the value for `ttl` seconds. Redis refuses an
      expiry of zero seconds. */
  function SetEx<S>(entries: Entries<S>, key: string, value: Stored<S>, ttl: nat, now: int): (r: Result<Entries<S>, StoreError>)
    ensures r.Err? <==> ttl == 0
    ensures r.Ok? ==> r.value.Keys == entries.Keys + {key}
  {
    if ttl == 0 then Err(Redis) else Ok(entries[key := Entry(value, now + ttl)])
  }

  /** `Store::load`: a missing key is no session, a readable value is the session
      it holds, unreadable bytes are a `Json` error carrying them; an unreachable
      Redis is a `Redis` error. */
  function Fetch<S>(entries: Entries<S>, id: string, now: int, reachable: bool): Result<Option<Record<S>>, StoreError> {
    if !reachable then Err(Redis)
    else match Get(entries, Key(id), now)
      case None => Ok(None)
      case Some(Serialized(record)) => Ok(Some(record))
      case Some(Undecodable(raw)) => Err(Json(raw))
  }

  /** `Store::save`: the serialised session under its key, for the whole seconds
      left until its expiry. */
  function Put<S>(entries: Entries<S>, record: Record<S>, now: int, reachable: bool): Result<Entries<S>, StoreError> {
    if !reachable then Err(Redis)
    else SetEx(entries, Key(record.id), Serialized(record), SessionTiming.Ttl(record.expiry, now), now)
  }

  /** Load tells a missing session from an unreadable one, and a backend failure
      from both. */
  lemma FetchOutcomes<S>(entries: Entries<S>, id: string, now: int, reachable: bool)
    ensures Fetch(entries, id, now, reachable) == Err(Redis) <==> !reachable
    ensures Fetch(entries, id, now, reachable) == Ok(None) <==>
      reachable && (Key(id) !in entries || entries[Key(id)].deadline <= now)
    ensures Fetch(entries, id, now, reachable).Err? && Fetch(entries, id, now, reachable).error.Json? <==>
      reachable && Key(id) in entries && now < entries[Key(id)].deadline && entries[Key(id)].value.Undecodable?
    ensures reachable && Key(id) in entries && now < entries[Key(id)].deadline && entries[Key(id)].value.Undecodable? ==>
      Fetch(entries, id, now, reachable) == Err(Json(entries[Key(id)].value.raw))
  {
  }

  /** Save fails exactly when Redis is unreachable or the session has already
      expired (a zero time-to-live). */
  lemma PutFails<S>(entries: Entries<S>, record: Record<S>, now: int, reachable: bool)
    ensures Put(entries, record, now, reachable).Err? <==> !reachable || record.expiry <= now
  {
  }

  /** A saved session is loaded back, with the same id, expiry and state, by any
      load before its expiry. */
  lemma FetchAfterPut<S>(entries: Entries<S>, record: Record<S>, now: int, later: int)
    requires Put(entries, record, now, true).Ok?
    requires now <= later < record.expiry
    ensures Fetch(Put(entries, record, now, true).value, record.id, later, true) == Ok(Some(record))
  {
  }

  /** Saving one session leaves every other session's load as it was. */
  lemma PutKeepsOthers<S>(entries: Entries<S>, record: Record<S>, now: int, id: string, later: int)
    requires Put(entries, record, now, true).Ok?
    requires id != record.id
    ensures Fetch(Put(entries, record, now, true).value, id, later, true) == Fetch(entries, id, later, true)
  {
    if Key(id) == Key(record.id) {
      KeyInjective(id, record.id);
    }
  }

  /** Once a saved session's expiry has passed, Redis has forgotten it. */
  lemma PutForgottenAfterExpiry<S>(entries: Entries<S>, record: Record<S>, now: int, later: int)
    requires Put(entries, record, now, true).Ok?
    requires record.expiry <= later
    ensures Fetch(Put(entries, record, now, true).value, record.id, later, true) == Ok(None)
  {
  }
}
