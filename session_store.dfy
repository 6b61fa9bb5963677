/** `Store` of the `session` crate (session/src/store.rs): sessions kept in Redis
    under `identity:session:{id}`. Whether Redis answers is a parameter of each
    call; the keys read are recorded so that callers can state when no lookup
    happens. */
module SessionStore {
  import opened Common
  import opened SessionStorage
  import Sessions

  class Store {
    var entries: Entries<Sessions.SessionState>
    /** The Redis keys read so far. */
    ghost var lookups: seq<string>

    constructor(initial: Entries<Sessions.SessionState>)
      ensures entries == initial && lookups == []
    {
      entries := initial;
      lookups := [];
    }

    /** `Store::load`: a missing or expired key is no session, stored bytes that do
        not deserialise are a `Json` error carrying them, and a session that loads
        has no cookie secret. */
    method Load(id: string, now: int, reachable: bool) returns (r: Result<Option<Sessions.Session>, StoreError>)
      modifies this`lookups
      ensures lookups == old(lookups) + [Key(id)]
      ensures r.Err? <==> Fetch(entries, id, now, reachable).Err?
      ensures r.Err? ==> r.error == Fetch(entries, id, now, reachable).error
      ensures r == Ok(None) <==> Fetch(entries, id, now, reachable) == Ok(None)
      ensures r.Ok? && r.value.Some? ==>
        fresh(r.value.value) &&
        Fetch(entries, id, now, reachable) == Ok(Some(r.value.value.ToRecord())) &&
        r.value.value.cookieValue == None
    {
      lookups := lookups + [Key(id)];
      if !reachable {
        return Err(Redis);
      }
      var raw := Get(entries, Key(id), now);
      if raw.None? {
        r := Ok(None);
      } else if raw.value.Undecodable? {
        r := Err(Json(raw.value.raw));
      } else {
        var session := new Sessions.Session.FromRecord(raw.value.record);
        r := Ok(Some(session));
      }
    }

    /** `Store::save`: overwrite the session's key for the seconds left until its
        expiry; nothing changes when Redis refuses or cannot be reached. */
    method Save(session: Sessions.Session, now: int, reachable: bool) returns (r: Result<(), StoreError>)
      modifies this`entries
      ensures Put(old(entries), session.ToRecord(), now, reachable).Ok? ==>
        r == Ok(()) && entries == Put(old(entries), session.ToRecord(), now, reachable).value
      ensures Put(old(entries), session.ToRecord(), now, reachable).Err? ==>
        r == Err(Put(old(entries), session.ToRecord(), now, reachable).error) && entries == old(entries)
    {
      if !reachable {
        return Err(Redis);
      }
      var expiration := if session.expiry - now > 0 then session.expiry - now else 0;
      var written := SetEx(entries, Key(session.id), Serialized(session.ToRecord()), expiration, now);
      match written {
        case Ok(next) =>
          entries := next;
          r := Ok(());
        case Err(e) =>
          r := Err(e);
      }
    }
  }
}
