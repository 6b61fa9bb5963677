/** The application's older session store (src/session/store.rs): the same Redis
    layout and error cases as the `session` crate's store, over the application's
    own session states, plus the human-readable form of its errors. */
module AppSessionStore {
  import opened Common
  import opened SessionStorage
  import Utf8
  import AppSessions

  const RedisMessage: string := "error while interacting with redis"
  const JsonPrefix: string := "failed to deserialize session: "

  /** `Display for Error`: the stored bytes that failed to deserialise are shown
      as text, with ill-formed UTF-8 replaced by U+FFFD. */
  function Display(e: StoreError): (r: string)
    ensures e.Redis? ==> r == RedisMessage
    ensures e.Json? ==> |r| >= |JsonPrefix| && r[..|JsonPrefix|] == JsonPrefix
  {
    match e
    case Redis => RedisMessage
    case Json(content) => JsonPrefix + Utf8.DecodeLossy(content)
  }

  /** Stored content that is valid UTF-8 is shown verbatim. */
  lemma DisplayShowsContent(text: string)
    ensures Display(Json(Utf8.Encode(text))) == JsonPrefix + text
  {
    Utf8.DecodeLossyEncode(text);
  }

  /** The two kinds of error never read alike. */
  lemma DisplayDistinguishes(content: Bytes)
    ensures Display(Redis) != Display(Json(content))
  {
    assert Display(Redis)[0] == 'e' && Display(Json(content))[0] == 'f';
  }

  class Store {
    var entries: Entries<AppSessions.SessionState>
    /** The Redis keys read so far. */
    ghost var lookups: seq<string>

    constructor(initial: Entries<AppSessions.SessionState>)
      ensures entries == initial && lookups == []
    {
      entries := initial;
      lookups := [];
    }

    /** `Store::load`: a missing or expired key is no session, stored bytes that do
        not deserialise are a `Json` error carrying them, and a session that loads
        has no cookie secret. */
    method Load(id: string, now: int, reachable: bool) returns (r: Result<Option<AppSessions.Session>, StoreError>)
      modifies this`lookups
      ensures lookups == old(lookups) + [Key(id)]
      ensures r.Err? <==> Fetch(entries, id, now, reachable).Err?
      ensures r.Err? ==> r.error == Fetch(entries, id, now, reachable).error
      ensures r == Ok(None) <==> Fetch(entries, id, now, reachable) == Ok(None)
      ensures r.Ok? && r.value.Some? ==>
        fresh(r.value.value) &&
        Fetch(entries, id, now, reachable) == Ok(Some(r.value.value.ToRecord())) &&
        r.value.value.cookieValue == None
    {
      lookups := lookups + [Key(id)];
      if !reachable {
        return Err(Redis);
      }
      var raw := Get(entries, Key(id), now);
      if raw.None? {
        r := Ok(None);
      } else if raw.value.Undecodable? {
        r := Err(Json(raw.value.raw));
      } else {
        var session := new AppSessions.Session.FromRecord(raw.value.record);
        r := Ok(Some(session));
      }
    }

    /** `Store::save`: overwrite the session's key for the seconds left until its
        expiry; nothing changes when Redis refuses or cannot be reached. */
    method Save(session: AppSessions.Session, now: int, reachable: bool) returns (r: Result<(), StoreError>)
      modifies this`entries
      ensures Put(old(entries), session.ToRecord(), now, reachable).Ok? ==>
        r == Ok(()) && entries == Put(old(entries), session.ToRecord(), now, reachable).value
      ensures Put(old(entries), session.ToRecord(), now, reachable).Err? ==>
        r == Err(Put(old(entries), session.ToRecord(), now, reachable).error) && entries == old(entries)
    {
      if !reachable {
        return Err(Redis);
      }
      var expiration := if session.expiry - now > 0 then session.expiry - now else 0;
      var written := SetEx(entries, Key(session.id), Serialized(session.ToRecord()), expiration, now);
      if written.Ok? {
        entries := written.value;
        r := Ok(());
      } else {
        r := Err(written.error);
      }
    }
  }
}
