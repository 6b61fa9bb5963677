/** Events and their partial-update builder (database/src/event.rs), and the
    grouping of events by organization that the organization data loader uses.
    The outcome of each SQL statement is a parameter; times are whole seconds. */
module Events {
  import opened Common
  import Database

  /** The columns of an event row; the slug is its key. */
  datatype EventRow = EventRow(
    slug: string,
    name: string,
    organizationId: I32,
    expiresOn: int,
    createdAt: int,
    updatedAt: int)

  class Event {
    var slug: string
    var name: string
    var organizationId: I32
    var expiresOn: int
    var createdAt: int
    var updatedAt: int

    /** An event as read from the database. */
    constructor(row: EventRow)
      ensures Row() == row
    {
      slug, name, organizationId := row.slug, row.name, row.organizationId;
      expiresOn, createdAt, updatedAt := row.expiresOn, row.createdAt, row.updatedAt;
    }

    function Row(): EventRow
      reads this
    {
      EventRow(slug, name, organizationId, expiresOn, createdAt, updatedAt)
    }

    /** `Event::is_active`: write access lasts up to and including the instant
        the event expires on. */
    function IsActive(now: int): (r: bool)
      reads this
      ensures r <==> now <= expiresOn
    {
      expiresOn >= now
    }
  }

  /** The changes an updater holds. */
  datatype Pending = Pending(name: Option<string>, organizationId: Option<I32>, expiresOn: Option<int>)

  const NoChanges: Pending := Pending(None, None, None)

  predicate NothingToWrite(p: Pending) {
    p.name.None? && p.organizationId.None? && p.expiresOn.None?
  }

  /** The row after a successful write: each pending field replaces its column;
      the slug and the timestamps never change. */
  function Applied(row: EventRow, p: Pending): (r: EventRow)
    ensures r.slug == row.slug && r.createdAt == row.createdAt && r.updatedAt == row.updatedAt
    ensures NothingToWrite(p) ==> r == row
    ensures p.name.Some? ==> r.name == p.name.value
    ensures p.name.None? ==> r.name == row.name
    ensures p.organizationId.Some? ==> r.organizationId == p.organizationId.value
    ensures p.organizationId.None? ==> r.organizationId == row.organizationId
    ensures p.expiresOn.Some? ==> r.expiresOn == p.expiresOn.value
    ensures p.expiresOn.None? ==> r.expiresOn == row.expiresOn
  {
    row.(name := Override(p.name, row.name),
         organizationId := Override(p.organizationId, row.organizationId),
         expiresOn := Override(p.expiresOn, row.expiresOn))
  }

  /** Writing the same changes twice is writing them once. */
  lemma AppliedIdempotent(row: EventRow, p: Pending)
    ensures Applied(Applied(row, p), p) == Applied(row, p)
  {
  }

  class EventUpdater {
    const event: Event
    var name: Option<string>
    var organizationId: Option<I32>
    var expiresOn: Option<int>

    /** `Event::update`: an updater with nothing pending. */
    constructor(event: Event)
      ensures this.event == event && Changes() == NoChanges
    {
      this.event := event;
      name, organizationId, expiresOn := None, None, None;
    }

    function Changes(): Pending
      reads this
    {
      Pending(name, organizationId, expiresOn)
    }

    method Name(v: string)
      modifies this
      ensures Changes() == old(Changes()).(name := Some(v))
    {
      name := Some(v);
    }

    method OverrideName(o: Option<string>)
      modifies this
      ensures Changes() == old(Changes()).(name := o)
    {
      name := o;
    }

    method Organization(id: I32)
      modifies this
      ensures Changes() == old(Changes()).(organizationId := Some(id))
    {
      organizationId := Some(id);
    }

    method OverrideOrganization(o: Option<I32>)
      modifies this
      ensures Changes() == old(Changes()).(organizationId := o)
    {
      organizationId := o;
    }

    method ExpiresOn(at: int)
      modifies this
      ensures Changes() == old(Changes()).(expiresOn := Some(at))
    {
      expiresOn := Some(at);
    }

    method OverrideExpiresOn(o: Option<int>)
      modifies this
      ensures Changes() == old(Changes()).(expiresOn := o)
    {
      expiresOn := o;
    }

    /** `EventUpdater::save`: nothing pending is no write; a failed UPDATE leaves
        the event as it was; a successful one applies the pending changes. */
    method Save(outcome: Option<Database.Error>) returns (r: Result<(), Database.Error>)
      modifies event
      ensures NothingToWrite(Changes()) ==> r == Ok(()) && event.Row() == old(event.Row())
      ensures !NothingToWrite(Changes()) && outcome.Some? ==>
        r == Err(outcome.value) && event.Row() == old(event.Row())
      ensures !NothingToWrite(Changes()) && outcome.None? ==>
        r == Ok(()) && event.Row() == Applied(old(event.Row()), Changes())
    {
      if name.None? && organizationId.None? && expiresOn.None? {
        return Ok(());
      }
      if outcome.Some? {
        return Err(outcome.value);
      }
      if name.Some? {
        event.name := name.value;
      }
      if organizationId.Some? {
        event.organizationId := organizationId.value;
      }
      if expiresOn.Some? {
        event.expiresOn := expiresOn.value;
      }
      r := Ok(());
    }
  }

  /** The events of one organization, in the order the query returned them. */
  function Bucket(events: seq<EventRow>, organizationId: I32): seq<EventRow> {
    if events == [] then []
    else
      var last := events[|events| - 1];
      Bucket(events[..|events| - 1], organizationId) + (if last.organizationId == organizationId then [last] else [])
  }

  /** The organizations that own at least one of the events. */
  function Owners(events: seq<EventRow>): set<I32> {
    if events == [] then {} else Owners(events[..|events| - 1]) + {events[|events| - 1].organizationId}
  }

  /** An organization owns an event of the list exactly when it is among the owners. */
  lemma {:induction false} OwnersExact(events: seq<EventRow>, id: I32)
    ensures id in Owners(events) <==> exists e :: e in events && e.organizationId == id
  {
    if events != [] {
      var init, last := events[..|events| - 1], events[|events| - 1];
      assert events == init + [last];
      OwnersExact(init, id);
      if id in Owners(init) {
        var e :| e in init && e.organizationId == id;
        assert e in events;
      }
    }
  }

  /** A bucket holds only events of its organization, drawn from the input. */
  lemma {:induction false} BucketSound(events: seq<EventRow>, organizationId: I32, e: EventRow)
    requires e in Bucket(events, organizationId)
    ensures e in events && e.organizationId == organizationId
  {
    var init := events[..|events| - 1];
    if e in Bucket(init, organizationId) {
      BucketSound(init, organizationId, e);
    }
  }

  /** Every event of an organization lands in its bucket. */
  lemma {:induction false} BucketComplete(events: seq<EventRow>, e: EventRow)
    requires e in events
    ensures e in Bucket(events, e.organizationId)
  {
    var last := events[|events| - 1];
    if e != last {
      assert events == events[..|events| - 1] + [last];
      BucketComplete(events[..|events| - 1], e);
    }
  }

  /** The buckets of distinct organizations share no event: together they hold
      no more events than the input. */
  lemma {:induction false} BucketSizes(events: seq<EventRow>, a: I32, b: I32)
    requires a != b
    ensures |Bucket(events, a)| + |Bucket(events, b)| <= |events|
  {
    if events != [] {
      BucketSizes(events[..|events| - 1], a, b);
    }
  }

  /** An organization that owns none of the events has an empty bucket. */
  lemma {:induction false} BucketOfNonOwner(events: seq<EventRow>, organizationId: I32)
    requires organizationId !in Owners(events)
    ensures Bucket(events, organizationId) == []
  {
    if events != [] {
      BucketOfNonOwner(events[..|events| - 1], organizationId);
    }
  }

  /** Appending one event adds its organization and extends only its bucket. */
  lemma GroupStep(prefix: seq<EventRow>, e: EventRow)
    ensures Owners(prefix + [e]) == Owners(prefix) + {e.organizationId}
    ensures Bucket(prefix + [e], e.organizationId) == Bucket(prefix, e.organizationId) + [e]
    ensures forall id :: id != e.organizationId ==> Bucket(prefix + [e], id) == Bucket(prefix, id)
  {
    assert (prefix + [e])[..|prefix|] == prefix;
  }

  /** Pushing one more event onto its organization's bucket keeps the map
      equal to the grouping of the longer prefix. */
  lemma GroupInsert(m: map<I32, seq<EventRow>>, prefix: seq<EventRow>, e: EventRow)
    requires m.Keys == Owners(prefix)
    requires forall id :: id in m ==> m[id] == Bucket(prefix, id)
    ensures var entry := if e.organizationId in m then m[e.organizationId] else [];
      var next := m[e.organizationId := entry + [e]];
      && next.Keys == Owners(prefix + [e])
      && forall id :: id in next ==> next[id] == Bucket(prefix + [e], id)
  {
    if e.organizationId !in m {
      BucketOfNonOwner(prefix, e.organizationId);
    }
    GroupStep(prefix, e);
  }

  /** `load_for_organizations`' fold: each event is pushed onto the bucket of its
      organization, creating the bucket on first use. */
  method GroupByOrganization(events: seq<EventRow>) returns (m: map<I32, seq<EventRow>>)
    ensures m.Keys == Owners(events)
    ensures forall id :: id in m ==> m[id] == Bucket(events, id)
  {
    m := map[];
    var i := 0;
    while i < |events|
      invariant 0 <= i <= |events|
      invariant m.Keys == Owners(events[..i])
      invariant forall id :: id in m ==> m[id] == Bucket(events[..i], id)
    {
      var e := events[i];
      GroupInsert(m, events[..i], e);
      var entry := if e.organizationId in m then m[e.organizationId] else [];
      m := m[e.organizationId := entry + [e]];
      assert events[..i + 1] == events[..i] + [e];
      i := i + 1;
    }
    assert events[..i] == events;
  }
}
